/** The benchmark's greedy field matching, its accumulators and the F1 it reports. */
module Matching {
  import opened Domain

  // ---------------------------------------------------------------- chosen positions

  /** The elements of the first `n` positions of `s` that are chosen. */
  function Picked<T(==)>(s: seq<T>, chosen: set<nat>, n: nat): multiset<T>
    requires n <= |s|
  {
    if n == 0 then multiset{}
    else Picked(s, chosen, n - 1) + (if n - 1 in chosen then multiset{s[n-1]} else multiset{})
  }

  lemma MultisetSumSwap<T>(a: multiset<T>, b: multiset<T>, c: multiset<T>)
    ensures a + b + c == a + c + b
  {
  }

  /** A position was chosen exactly once for each unit of an element's multiplicity. */
  lemma {:induction false} PickOne<T>(s: seq<T>, chosen: set<nat>, k: nat, n: nat)
    requires k < |s| && k !in chosen && n <= |s|
    ensures Picked(s, chosen + {k}, n) == Picked(s, chosen, n) + (if k < n then multiset{s[k]} else multiset{})
  {
    if n > 0 {
      PickOne(s, chosen, k, n - 1);
      var last := if n - 1 in chosen then multiset{s[n-1]} else multiset{};
      if k == n - 1 {
        assert last == multiset{};
      } else {
        assert n - 1 in chosen + {k} <==> n - 1 in chosen;
        MultisetSumSwap(Picked(s, chosen, n - 1), if k < n then multiset{s[k]} else multiset{}, last);
      }
    }
  }

  lemma PickedNext<T>(s: seq<T>, chosen: set<nat>, n: nat, x: T)
    requires n < |s|
    ensures Picked(s, chosen, n + 1)[x] == Picked(s, chosen, n)[x] + if s[n] == x && n in chosen then 1 else 0
    ensures multiset(s[..n+1])[x] == multiset(s[..n])[x] + if s[n] == x then 1 else 0
  {
    assert s[..n+1] == s[..n] + [s[n]];
  }

  lemma {:induction false} PickedIsPart<T>(s: seq<T>, chosen: set<nat>, n: nat, x: T)
    requires n <= |s|
    ensures Picked(s, chosen, n)[x] <= multiset(s[..n])[x]
    ensures Picked(s, chosen, n)[x] == multiset(s[..n])[x] <==> forall k :: 0 <= k < n && s[k] == x ==> k in chosen
  {
    if n > 0 {
      PickedIsPart(s, chosen, n - 1, x);
      PickedNext(s, chosen, n - 1, x);
    }
  }

  // ---------------------------------------------------------------- one document

  /** First fit: each prediction takes the first expected entry with equal fields that is not taken yet. */
  method MatchFields<T(==)>(predicted: seq<T>, expected: seq<T>)
    returns (truePositives: nat, falsePositives: nat, falseNegatives: nat, taken: set<nat>)
    ensures truePositives == |multiset(predicted) * multiset(expected)|
    ensures truePositives + falsePositives == |predicted|
    ensures truePositives + falseNegatives == |expected|
    ensures Picked(expected, taken, |expected|) == multiset(predicted) * multiset(expected)
  {
    truePositives, falsePositives, taken := 0, 0, {};
    NothingPicked(expected, |expected|);
    for i := 0 to |predicted|
      invariant truePositives + falsePositives == i
      invariant truePositives == |taken|
      invariant forall k :: k in taken ==> k < |expected|
      invariant Picked(expected, taken, |expected|) == multiset(predicted[..i]) * multiset(expected)
    {
      var found := FirstFit(predicted[i], expected, taken);
      StepOfMatching(predicted, expected, taken, i, found);
      if found.Some? {
        taken := taken + {found.value};
        truePositives := truePositives + 1;
      } else {
        falsePositives := falsePositives + 1;
      }
    }
    assert predicted[..|predicted|] == predicted;
    PickedSize(expected, taken, |expected|);
    TakenFits(taken, |expected|);
    falseNegatives := |expected| - |taken|;
  }

  method FirstFit<T(==)>(p: T, expected: seq<T>, taken: set<nat>) returns (found: Option<nat>)
    ensures found.Some? ==> found.value < |expected| && found.value !in taken && expected[found.value] == p
    ensures found.Some? ==> forall k :: 0 <= k < found.value && k !in taken ==> expected[k] != p
    ensures found.None? ==> forall k :: 0 <= k < |expected| && k !in taken ==> expected[k] != p
  {
    for k := 0 to |expected|
      invariant forall j :: 0 <= j < k && j !in taken ==> expected[j] != p
    {
      if k in taken {
        continue;
      }
      if expected[k] == p {
        return Some(k);
      }
    }
    return None;
  }

  lemma {:induction false} NothingPicked<T>(s: seq<T>, n: nat)
    requires n <= |s|
    ensures Picked(s, {}, n) == multiset{}
  {
    if n > 0 {
      NothingPicked(s, n - 1);
    }
  }

  function Below(chosen: set<nat>, n: nat): set<nat> {
    set k | k in chosen && k < n
  }

  lemma BelowNext(chosen: set<nat>, n: nat)
    ensures |Below(chosen, n + 1)| == |Below(chosen, n)| + if n in chosen then 1 else 0
  {
    assert Below(chosen, n + 1) == if n in chosen then Below(chosen, n) + {n} else Below(chosen, n);
  }

  lemma {:induction false} PickedSize<T>(s: seq<T>, chosen: set<nat>, n: nat)
    requires n <= |s|
    ensures |Picked(s, chosen, n)| == |Below(chosen, n)|
  {
    if n == 0 {
      assert Below(chosen, n) == {};
    } else {
      PickedSize(s, chosen, n - 1);
      BelowNext(chosen, n - 1);
    }
  }

  lemma {:induction false} TakenFits(taken: set<nat>, n: nat)
    requires forall k :: k in taken ==> k < n
    ensures |taken| <= n && taken == Below(taken, n)
  {
    if n == 0 {
      assert taken == {};
    } else {
      TakenFits(taken - {n - 1}, n - 1);
    }
  }

  lemma CommonOfMore<T>(seen: multiset<T>, all: multiset<T>, p: T)
    ensures (seen + multiset{p}) * all == if seen[p] < all[p] then seen * all + multiset{p} else seen * all
  {
  }

  /** An untaken entry equal to `p` exists exactly when fewer were seen than there are. */
  lemma UntakenIff<T>(expected: seq<T>, taken: set<nat>, seen: multiset<T>, p: T)
    requires Picked(expected, taken, |expected|) == seen * multiset(expected)
    ensures seen[p] < multiset(expected)[p] <==> exists k :: 0 <= k < |expected| && expected[k] == p && k !in taken
  {
    assert expected[..|expected|] == expected;
    PickedIsPart(expected, taken, |expected|, p);
  }

  /** One more prediction, matched or not, leaves the taken entries the common part of what was seen. */
  lemma StepOfMatching<T>(predicted: seq<T>, expected: seq<T>, taken: set<nat>, i: nat, found: Option<nat>)
    requires i < |predicted|
    requires Picked(expected, taken, |expected|) == multiset(predicted[..i]) * multiset(expected)
    requires found.Some? ==> found.value < |expected| && found.value !in taken && expected[found.value] == predicted[i]
    requires found.None? ==> forall k :: 0 <= k < |expected| && k !in taken ==> expected[k] != predicted[i]
    ensures Picked(expected, if found.Some? then taken + {found.value} else taken, |expected|) ==
            multiset(predicted[..i+1]) * multiset(expected)
  {
    var p := predicted[i];
    assert predicted[..i+1] == predicted[..i] + [p];
    UntakenIff(expected, taken, multiset(predicted[..i]), p);
    CommonOfMore(multiset(predicted[..i]), multiset(expected), p);
    if found.Some? {
      PickOne(expected, taken, found.value, |expected|);
    }
  }

  // ---------------------------------------------------------------- first fit is optimal

  /** A matching pairs distinct predictions with distinct expected entries of equal fields. */
  ghost predicate IsMatching<T(!new)>(m: map<nat, nat>, predicted: seq<T>, expected: seq<T>) {
    && (forall i :: i in m ==> i < |predicted| && m[i] < |expected| && predicted[i] == expected[m[i]])
    && (forall i, j :: i in m && j in m && m[i] == m[j] ==> i == j)
  }

  lemma DropPair(m: map<nat, nat>, i: nat)
    requires i in m && forall j, k :: j in m && k in m && m[j] == m[k] ==> j == k
    ensures var rest := m - {i};
            && i !in rest.Keys && rest.Keys + {i} == m.Keys && |rest| < |m|
            && m[i] !in rest.Values && rest.Values + {m[i]} == m.Values
  {
    var rest := m - {i};
    assert rest.Keys == m.Keys - {i};
    assert |rest.Keys| < |m.Keys|;
    forall v | v in m.Values && v != m[i] ensures v in rest.Values {
      var j :| j in m && m[j] == v;
      assert j in rest;
    }
  }

  lemma {:induction false} MatchingPicksSame<T(!new)>(m: map<nat, nat>, predicted: seq<T>, expected: seq<T>)
    requires IsMatching(m, predicted, expected)
    ensures Picked(predicted, m.Keys, |predicted|) == Picked(expected, m.Values, |expected|)
    decreases |m|
  {
    if m.Keys == {} {
      NothingPicked(predicted, |predicted|);
      NothingPicked(expected, |expected|);
      assert m.Values == {};
    } else {
      var i :| i in m.Keys;
      var rest := m - {i};
      DropPair(m, i);
      MatchingPicksSame(rest, predicted, expected);
      PickOne(predicted, rest.Keys, i, |predicted|);
      PickOne(expected, rest.Values, m[i], |expected|);
    }
  }

  /** No matching is larger than the one the first-fit loop finds, whatever the order of the two lists. */
  lemma FirstFitIsOptimal<T(!new)>(m: map<nat, nat>, predicted: seq<T>, expected: seq<T>)
    requires IsMatching(m, predicted, expected)
    ensures |m| <= |multiset(predicted) * multiset(expected)|
  {
    var picked := Picked(predicted, m.Keys, |predicted|);
    MatchingPicksSame(m, predicted, expected);
    assert predicted[..|predicted|] == predicted && expected[..|expected|] == expected;
    var common := multiset(predicted) * multiset(expected);
    forall x ensures picked[x] <= common[x] {
      PickedIsPart(predicted, m.Keys, |predicted|, x);
      PickedIsPart(expected, m.Values, |expected|, x);
    }
    PartIsSmaller(picked, common);
    PickedSize(predicted, m.Keys, |predicted|);
    assert m.Keys == set k | k in m.Keys && k < |predicted|;
  }

  lemma PartIsSmaller<T>(a: multiset<T>, b: multiset<T>)
    requires a <= b
    ensures |a| <= |b|
  {
    assert b == a + (b - a);
  }

  // ---------------------------------------------------------------- a split

  datatype Case<T> = Case(nonBinding: bool, predicted: seq<T>, expected: seq<T>)

  datatype Tally = Tally(tp: nat, fp: nat, fn: nat, nonBindingFp: nat)

  /** Totals over the cases that are scored. */
  function Common<T(==)>(cases: seq<Case<T>>): nat {
    if cases == [] then 0
    else
      var c := cases[|cases|-1];
      Common(cases[..|cases|-1]) + if c.nonBinding then 0 else |multiset(c.predicted) * multiset(c.expected)|
  }

  function Predictions<T>(cases: seq<Case<T>>, nonBinding: bool): nat {
    if cases == [] then 0
    else
      var c := cases[|cases|-1];
      Predictions(cases[..|cases|-1], nonBinding) + if c.nonBinding == nonBinding then |c.predicted| else 0
  }

  function Expectations<T>(cases: seq<Case<T>>): nat {
    if cases == [] then 0
    else
      var c := cases[|cases|-1];
      Expectations(cases[..|cases|-1]) + if c.nonBinding then 0 else |c.expected|
  }

  method Accumulate<T(==)>(cases: seq<Case<T>>) returns (t: Tally)
    ensures t.tp == Common(cases)
    ensures t.tp + t.fp == Predictions(cases, false) && t.nonBindingFp == Predictions(cases, true)
    ensures t.tp + t.fn == Expectations(cases)
  {
    t := Tally(0, 0, 0, 0);
    for i := 0 to |cases|
      invariant t.tp == Common(cases[..i])
      invariant t.tp + t.fp == Predictions(cases[..i], false) && t.nonBindingFp == Predictions(cases[..i], true)
      invariant t.tp + t.fn == Expectations(cases[..i])
    {
      var c := cases[i];
      assert cases[..i+1][..i] == cases[..i];
      if c.nonBinding {
        t := t.(nonBindingFp := t.nonBindingFp + |c.predicted|);
      } else {
        var tp, fp, fn, taken := MatchFields(c.predicted, c.expected);
        t := t.(tp := t.tp + tp, fp := t.fp + fp, fn := t.fn + fn);
      }
    }
    assert cases[..|cases|] == cases;
  }

  // ---------------------------------------------------------------- the metrics

  datatype Metrics = Metrics(precision: Option<real>, recall: Option<real>, f1: Option<real>)

  function Ratio(n: nat, d: nat): Option<real> {
    if d > 0 then Some(n as real / d as real) else None
  }

  lemma HarmonicMean(t: real, a: real, b: real)
    requires t > 0.0 && a > 0.0 && b > 0.0
    ensures t / a > 0.0 && t / b > 0.0
    ensures (2.0 * (t / a) * (t / b)) / (t / a + t / b) == 2.0 * t / (a + b)
  {
    var (p, r) := (t / a, t / b);
    assert p * a == t && r * b == t;
    assert p * r * (a + b) == t * (p + r) by {
      assert p * r * (a + b) == (p * a) * r + (r * b) * p;
    }
    assert 2.0 * p * r * (a + b) == 2.0 * t * (p + r);
    QuotientsEqual(2.0 * p * r, p + r, 2.0 * t, a + b);
  }

  lemma QuotientsEqual(x: real, y: real, z: real, w: real)
    requires y > 0.0 && w > 0.0 && x * w == z * y
    ensures x / y == z / w
  {
    assert x == (z / w) * y by {
      assert (z / w) * w == z;
      assert ((z / w) * y) * w == z * y;
      CancelFactor(x, (z / w) * y, w);
    }
    assert x / y == ((z / w) * y) / y;
  }

  lemma CancelFactor(x: real, y: real, w: real)
    requires w > 0.0 && x * w == y * w
    ensures x == y
  {
    assert (x - y) * w == 0.0;
  }

  /** The reported F1 is 2tp / (2tp + fp + fn); it is defined exactly when something matched, and is at most 1. */
  method CalcMetrics(tp: nat, fp: nat, fn: nat) returns (m: Metrics)
    ensures m.precision.Some? <==> tp + fp > 0
    ensures m.recall.Some? <==> tp + fn > 0
    ensures m.f1.Some? <==> tp > 0
    ensures m.f1.Some? ==> m.f1.value == (2 * tp) as real / (2 * tp + fp + fn) as real
    ensures m.f1.Some? ==> 0.0 < m.f1.value <= 1.0 && (m.f1.value == 1.0 <==> fp == 0 && fn == 0)
  {
    var precision, recall := Ratio(tp, tp + fp), Ratio(tp, tp + fn);
    var f1: Option<real> := None;
    if precision.Some? && recall.Some? {
      if tp > 0 {
        HarmonicMean(tp as real, (tp + fp) as real, (tp + fn) as real);
        FractionBound(2 * tp, fp + fn);
      }
      if precision.value + recall.value > 0.0 {
        f1 := Some((2.0 * precision.value * recall.value) / (precision.value + recall.value));
      }
    }
    m := Metrics(precision, recall, f1);
  }

  lemma FractionBound(n: nat, extra: nat)
    requires n > 0
    ensures 0.0 < n as real / (n + extra) as real <= 1.0
    ensures n as real / (n + extra) as real == 1.0 <==> extra == 0
  {
    var (x, y) := (n as real, (n + extra) as real);
    assert (x / y) * y == x;
  }
}
