/** Separated text: the split and join operations that the event log, the gap key, the task
    grouping key and the schema pointers all rest on, and the result types shared by every module. */
module Text {
  datatype Option<+T> = None | Some(value: T)

  datatype Result<+T, +E> = Ok(value: T) | Err(error: E)

  /** Cutting at every occurrence of `sep`; always at least one part, as in Python and JavaScript. */
  function Split<T(==)>(s: seq<T>, sep: T): (parts: seq<seq<T>>)
    ensures |parts| >= 1
    ensures forall i | 0 <= i < |parts| :: sep !in parts[i]
  {
    if s == [] then [[]]
    else
      Glued(s[0], Split(s[1..], sep), sep)
  }

  /** One more element in front of the parts: a cut, or an element of the first part. */
  function Glued<T(==)>(x: T, parts: seq<seq<T>>, sep: T): (glued: seq<seq<T>>)
    requires |parts| >= 1
    ensures |glued| >= 1
    ensures (forall i | 0 <= i < |parts| :: sep !in parts[i]) ==> forall i | 0 <= i < |glued| :: sep !in glued[i]
  {
    if x == sep then [[]] + parts else [[x] + parts[0]] + parts[1..]
  }

  function Join<T>(parts: seq<seq<T>>, sep: T): seq<T>
  {
    if parts == [] then []
    else if |parts| == 1 then parts[0]
    else parts[0] + [sep] + Join(parts[1..], sep)
  }

  ghost predicate FreeOf<T>(parts: seq<seq<T>>, sep: T) {
    forall i | 0 <= i < |parts| :: sep !in parts[i]
  }

  lemma {:induction false} SplitOfFree<T>(s: seq<T>, sep: T)
    requires sep !in s
    ensures Split(s, sep) == [s]
  {
    if s != [] {
      SplitOfFree(s[1..], sep);
      assert [s[0]] + s[1..] == s;
    }
  }

  lemma {:induction false} SplitAfterFree<T>(a: seq<T>, b: seq<T>, sep: T)
    requires sep !in a
    ensures Split(a + [sep] + b, sep) == [a] + Split(b, sep)
  {
    if a == [] {
      assert a + [sep] + b == [sep] + b;
    } else {
      SplitAfterFree(a[1..], b, sep);
      assert (a + [sep] + b)[1..] == a[1..] + [sep] + b;
      assert [a[0]] + a[1..] == a;
    }
  }

  /** Splitting what was joined gives the parts back, provided there is a part and none holds the separator. */
  lemma {:induction false} SplitOfJoin<T>(parts: seq<seq<T>>, sep: T)
    requires parts != [] && FreeOf(parts, sep)
    ensures Split(Join(parts, sep), sep) == parts
  {
    if |parts| == 1 {
      SplitOfFree(parts[0], sep);
    } else {
      SplitOfJoin(parts[1..], sep);
      SplitAfterFree(parts[0], Join(parts[1..], sep), sep);
    }
  }

  /** Every part after the first of a suffix is a part of the whole text; the first part is glued to what precedes. */
  lemma {:induction false} SplitSuffix<T>(a: seq<T>, b: seq<T>, sep: T)
    ensures Split(a + b, sep) == Split(a + Split(b, sep)[0], sep) + Split(b, sep)[1..]
  {
    var first, more := Split(b, sep)[0], Split(b, sep)[1..];
    if a == [] {
      assert a + b == b && a + first == first;
      SplitOfFree(first, sep);
    } else {
      SplitSuffix(a[1..], b, sep);
      SplitHead(a, b, sep);
      SplitHead(a, first, sep);
      GluedAppend(a[0], Split(a[1..] + first, sep), more, sep);
    }
  }

  lemma {:induction false} SplitHead<T>(a: seq<T>, b: seq<T>, sep: T)
    requires a != []
    ensures Split(a + b, sep) == Glued(a[0], Split(a[1..] + b, sep), sep)
  {
    assert (a + b)[1..] == a[1..] + b;
  }

  lemma {:induction false} GluedAppend<T>(x: T, parts: seq<seq<T>>, more: seq<seq<T>>, sep: T)
    requires |parts| >= 1
    ensures Glued(x, parts + more, sep) == Glued(x, parts, sep) + more
  {
    assert (parts + more)[1..] == parts[1..] + more;
  }

  /** How often `x` stands in a list. */
  function Occurrences<T(==)>(s: seq<T>, x: T): nat {
    if s == [] then 0 else Occurrences(s[..|s| - 1], x) + (if s[|s| - 1] == x then 1 else 0)
  }

  lemma {:induction false} OccurrencesAppend<T>(a: seq<T>, b: seq<T>, x: T)
    ensures Occurrences(a + b, x) == Occurrences(a, x) + Occurrences(b, x)
  {
    if b == [] {
      assert a + b == a;
    } else {
      OccurrencesAppend(a, b[..|b| - 1], x);
      assert (a + b)[..|a + b| - 1] == a + b[..|b| - 1];
    }
  }

  function LowerChar(c: char): char {
    if 'A' <= c <= 'Z' then c - 'A' + 'a' else c
  }

  function Lower(s: string): (t: string)
    ensures |t| == |s|
  {
    if s == "" then "" else [LowerChar(s[0])] + Lower(s[1..])
  }

  /** The last element that satisfies `p`: what a dictionary filled in list order holds. */
  function LastWhere<T>(s: seq<T>, p: T -> bool): Option<T> {
    if s == [] then None
    else if p(s[|s| - 1]) then Some(s[|s| - 1])
    else LastWhere(s[..|s| - 1], p)
  }

  /** The first element that satisfies `p`. */
  function FirstWhere<T>(s: seq<T>, p: T -> bool): Option<T> {
    if s == [] then None else if p(s[0]) then Some(s[0]) else FirstWhere(s[1..], p)
  }

  lemma {:induction false} LastWhereFinds<T>(s: seq<T>, p: T -> bool)
    ensures LastWhere(s, p).Some? ==> LastWhere(s, p).value in s && p(LastWhere(s, p).value)
    ensures LastWhere(s, p).None? ==> forall x | x in s :: !p(x)
  {
    if s != [] {
      LastWhereFinds(s[..|s| - 1], p);
      assert forall x | x in s :: x in s[..|s| - 1] || x == s[|s| - 1];
    }
  }

  lemma {:induction false} FirstWhereFinds<T>(s: seq<T>, p: T -> bool)
    ensures FirstWhere(s, p).Some? ==> FirstWhere(s, p).value in s && p(FirstWhere(s, p).value)
    ensures FirstWhere(s, p).None? ==> forall x | x in s :: !p(x)
  {
    if s != [] {
      FirstWhereFinds(s[1..], p);
      assert forall x | x in s :: x in s[1..] || x == s[0];
    }
  }

  lemma {:induction false} LastIndex<T>(s: seq<T>, p: T -> bool) returns (k: nat)
    requires LastWhere(s, p).Some?
    ensures k < |s| && p(s[k]) && (forall j | k < j < |s| :: !p(s[j])) && LastWhere(s, p) == Some(s[k])
  {
    if p(s[|s| - 1]) {
      k := |s| - 1;
    } else {
      k := LastIndex(s[..|s| - 1], p);
    }
  }

  lemma {:induction false} LastWhereIsLast<T>(s: seq<T>, p: T -> bool, k: nat)
    requires k < |s| && p(s[k]) && forall j | k < j < |s| :: !p(s[j])
    ensures LastWhere(s, p) == Some(s[k])
  {
    if k < |s| - 1 {
      LastWhereIsLast(s[..|s| - 1], p, k);
    }
  }

  lemma {:induction false} FirstWhereIsFirst<T>(s: seq<T>, p: T -> bool, k: nat)
    requires k < |s| && p(s[k]) && forall j | 0 <= j < k :: !p(s[j])
    ensures FirstWhere(s, p) == Some(s[k])
  {
    if k > 0 {
      FirstWhereIsFirst(s[1..], p, k - 1);
    }
  }
}
