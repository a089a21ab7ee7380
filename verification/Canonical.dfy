/** Canonical JSON: keys sorted, strings normalised, arrays in order. The encoding itself is one text per normalised
    value, so that values have the same canonical bytes exactly when their normalised forms are equal.
    Normalisation is any idempotent function on strings. */
module Canonical {

  /** `Scalar` stands for numbers, booleans and null. An object is a dictionary in its insertion order. */
  datatype Json = Scalar(number: int) | Str(s: string) | Arr(items: seq<Json>) | Obj(members: seq<Member>)

  datatype Member = Member(key: string, value: Json)

  ghost predicate Normalises(nfc: string -> string) {
    forall s :: nfc(nfc(s)) == nfc(s)
  }

  // ---------------------------------------------------------------- the order of keys

  /** Strings are compared by code points. */
  predicate Before(a: string, b: string) {
    if b == "" then false
    else if a == "" then true
    else a[0] < b[0] || (a[0] == b[0] && Before(a[1..], b[1..]))
  }

  lemma {:induction false} BeforeIsTotal(a: string, b: string)
    ensures Before(a, b) || Before(b, a) || a == b
    ensures !(Before(a, b) && Before(b, a)) && !Before(a, a)
  {
    if a != "" && b != "" {
      BeforeIsTotal(a[1..], b[1..]);
      BeforeIsTotal(a[1..], a[1..]);
      if a[0] == b[0] && a[1..] == b[1..] {
        assert a == [a[0]] + a[1..] && b == [b[0]] + b[1..];
      }
    } else if a != "" {
      BeforeIsTotal(a[1..], a[1..]);
    }
  }

  lemma {:induction false} BeforeIsTransitive(a: string, b: string, c: string)
    requires Before(a, b) && Before(b, c)
    ensures Before(a, c)
  {
    if a != "" && a[0] == b[0] && b[0] == c[0] {
      BeforeIsTransitive(a[1..], b[1..], c[1..]);
    }
  }

  // ---------------------------------------------------------------- normalisation

  function Insert(m: Member, sorted: seq<Member>): seq<Member> {
    if sorted == [] || Before(m.key, sorted[0].key) then [m] + sorted else [sorted[0]] + Insert(m, sorted[1..])
  }

  function SortByKey(ms: seq<Member>): seq<Member> {
    if ms == [] then [] else Insert(ms[0], SortByKey(ms[1..]))
  }

  /** A dictionary built from pairs: a repeated key keeps its place and takes the later value. */
  function Put(dict: seq<Member>, k: string, v: Json): seq<Member> {
    if dict == [] then [Member(k, v)]
    else if dict[0].key == k then [Member(k, v)] + dict[1..]
    else [dict[0]] + Put(dict[1..], k, v)
  }

  function Renamed(ms: seq<Member>, nfc: string -> string): seq<Member> {
    if ms == [] then [] else Put(Renamed(ms[..|ms|-1], nfc), nfc(ms[|ms|-1].key), ms[|ms|-1].value)
  }

  function Normalize(j: Json, nfc: string -> string): Json
    decreases j, 0
  {
    match j
    case Scalar(_) => j
    case Str(s) => Str(nfc(s))
    case Arr(items) => Arr(NormalizeItems(items, nfc))
    case Obj(ms) => Obj(Renamed(SortByKey(NormalizeValues(ms, nfc)), nfc))
  }

  function NormalizeItems(items: seq<Json>, nfc: string -> string): (r: seq<Json>)
    ensures |r| == |items| && forall i :: 0 <= i < |items| ==> r[i] == Normalize(items[i], nfc)
    decreases items, 1
  {
    seq(|items|, i requires 0 <= i < |items| => Normalize(items[i], nfc))
  }

  /** Sorting looks at keys only, so values may be normalised before it. */
  function NormalizeValues(ms: seq<Member>, nfc: string -> string): (r: seq<Member>)
    ensures |r| == |ms| && forall i :: 0 <= i < |ms| ==> r[i] == Member(ms[i].key, Normalize(ms[i].value, nfc))
    decreases ms, 1
  {
    seq(|ms|, i requires 0 <= i < |ms| => Member(ms[i].key, Normalize(ms[i].value, nfc)))
  }

  // ---------------------------------------------------------------- sorted members

  ghost predicate DistinctKeys(ms: seq<Member>) {
    forall i, j :: 0 <= i < j < |ms| ==> ms[i].key != ms[j].key
  }

  ghost predicate Sorted(ms: seq<Member>) {
    forall i, j :: 0 <= i < j < |ms| ==> Before(ms[i].key, ms[j].key)
  }

  lemma {:induction false} InInsert(m: Member, sorted: seq<Member>, x: Member)
    ensures x in Insert(m, sorted) <==> x == m || x in sorted
  {
    if sorted != [] && !Before(m.key, sorted[0].key) {
      InInsert(m, sorted[1..], x);
    }
  }

  lemma {:induction false} InSort(ms: seq<Member>, x: Member)
    ensures x in SortByKey(ms) <==> x in ms
  {
    if ms != [] {
      InSort(ms[1..], x);
      InInsert(ms[0], SortByKey(ms[1..]), x);
    }
  }

  lemma {:induction false} InsertSorts(m: Member, sorted: seq<Member>)
    requires Sorted(sorted) && forall x :: x in sorted ==> x.key != m.key
    ensures Sorted(Insert(m, sorted))
  {
    if sorted != [] {
      BeforeIsTotal(m.key, sorted[0].key);
      if Before(m.key, sorted[0].key) {
        forall j | 1 <= j < |sorted| ensures Before(m.key, sorted[j].key) {
          BeforeIsTransitive(m.key, sorted[0].key, sorted[j].key);
        }
      } else {
        InsertSorts(m, sorted[1..]);
        var rest := Insert(m, sorted[1..]);
        forall j | 0 <= j < |rest| ensures Before(sorted[0].key, rest[j].key) {
          InInsert(m, sorted[1..], rest[j]);
          assert rest[j] in rest;
        }
      }
    }
  }

  lemma {:induction false} SortSorts(ms: seq<Member>)
    requires DistinctKeys(ms)
    ensures Sorted(SortByKey(ms))
  {
    if ms != [] {
      SortSorts(ms[1..]);
      forall x | x in SortByKey(ms[1..]) ensures x.key != ms[0].key {
        InSort(ms[1..], x);
      }
      InsertSorts(ms[0], SortByKey(ms[1..]));
    }
  }

  ghost predicate SameMembers(a: seq<Member>, b: seq<Member>) {
    forall x :: x in a <==> x in b
  }

  /** The first of the one list is the first of the other. */
  lemma SameFirst(a: seq<Member>, b: seq<Member>)
    requires Sorted(a) && Sorted(b) && SameMembers(a, b) && a != [] && b != []
    ensures a[0] == b[0]
  {
    assert a[0] in b && b[0] in a;
    var i :| 0 <= i < |b| && b[i] == a[0];
    var j :| 0 <= j < |a| && a[j] == b[0];
    if i > 0 && j > 0 {
      BeforeIsTotal(a[0].key, b[0].key);
    }
  }

  lemma SameRest(a: seq<Member>, b: seq<Member>)
    requires Sorted(a) && Sorted(b) && SameMembers(a, b) && a != [] && b != [] && a[0] == b[0]
    ensures SameMembers(a[1..], b[1..])
  {
    forall x ensures x in a[1..] <==> x in b[1..] {
      BeforeIsTotal(a[0].key, a[0].key);
      if x in a[1..] {
        var i :| 1 <= i < |a| && a[i] == x;
        assert a[i] in b;
        var j :| 0 <= j < |b| && b[j] == x;
        assert b[1..][j-1] == x;
      }
      if x in b[1..] {
        var i :| 1 <= i < |b| && b[i] == x;
        assert b[i] in a;
        var j :| 0 <= j < |a| && a[j] == x;
        assert a[1..][j-1] == x;
      }
    }
  }

  lemma SameMembersEmpty(a: seq<Member>, b: seq<Member>)
    requires SameMembers(a, b)
    ensures a != [] ==> b != []
  {
    if a != [] {
      assert a[0] in a;
      assert a[0] in b;
    }
  }

  /** There is one way to sort. */
  lemma {:induction false} SortedIsUnique(a: seq<Member>, b: seq<Member>)
    requires Sorted(a) && Sorted(b) && SameMembers(a, b)
    ensures a == b
  {
    SameMembersEmpty(a, b);
    SameMembersEmpty(b, a);
    if a != [] {
      SameFirst(a, b);
      SameRest(a, b);
      SortedIsUnique(a[1..], b[1..]);
      assert a == [a[0]] + a[1..] && b == [b[0]] + b[1..];
    }
  }

  // ---------------------------------------------------------------- keys that are normal already

  /** Dictionary keys are distinct and in normal form, at every level. */
  ghost predicate NormalKeys(j: Json, nfc: string -> string) {
    match j
    case Scalar(_) => true
    case Str(_) => true
    case Arr(items) => forall i :: 0 <= i < |items| ==> NormalKeys(items[i], nfc)
    case Obj(ms) => DistinctKeys(ms) && forall i :: 0 <= i < |ms| ==> nfc(ms[i].key) == ms[i].key && NormalKeys(ms[i].value, nfc)
  }

  lemma {:induction false} PutNewKey(dict: seq<Member>, k: string, v: Json)
    requires forall i :: 0 <= i < |dict| ==> dict[i].key != k
    ensures Put(dict, k, v) == dict + [Member(k, v)]
  {
    if dict != [] {
      PutNewKey(dict[1..], k, v);
    }
  }

  lemma {:induction false} RenamedIsSame(ms: seq<Member>, nfc: string -> string)
    requires DistinctKeys(ms) && forall i :: 0 <= i < |ms| ==> nfc(ms[i].key) == ms[i].key
    ensures Renamed(ms, nfc) == ms
  {
    if ms != [] {
      RenamedIsSame(ms[..|ms|-1], nfc);
      PutNewKey(ms[..|ms|-1], ms[|ms|-1].key, ms[|ms|-1].value);
    }
  }

  lemma SortedAreDistinct(ms: seq<Member>)
    requires Sorted(ms)
    ensures DistinctKeys(ms)
  {
    forall i, j | 0 <= i < j < |ms| ensures ms[i].key != ms[j].key {
      BeforeIsTotal(ms[i].key, ms[j].key);
    }
  }

  /** For normal keys, an object is normalised to its sorted members with normalised values. */
  lemma NormalizedObject(ms: seq<Member>, nfc: string -> string)
    requires NormalKeys(Obj(ms), nfc)
    ensures Normalize(Obj(ms), nfc) == Obj(SortByKey(NormalizeValues(ms, nfc)))
    ensures Sorted(SortByKey(NormalizeValues(ms, nfc)))
  {
    var values := NormalizeValues(ms, nfc);
    SortSorts(values);
    var sorted := SortByKey(values);
    SortedAreDistinct(sorted);
    forall i | 0 <= i < |sorted| ensures nfc(sorted[i].key) == sorted[i].key {
      InSort(values, sorted[i]);
      var k :| 0 <= k < |values| && values[k] == sorted[i];
    }
    RenamedIsSame(sorted, nfc);
  }

  // ---------------------------------------------------------------- what the canonical form forgets

  /** Equal but for the order of object members and the NFC spelling of strings. */
  ghost predicate Equivalent(a: Json, b: Json, nfc: string -> string)
    decreases a
  {
    match a
    case Scalar(_) => a == b
    case Str(s) => b.Str? && nfc(s) == nfc(b.s)
    case Arr(items) =>
      b.Arr? && |items| == |b.items| && forall i :: 0 <= i < |items| ==> Equivalent(items[i], b.items[i], nfc)
    case Obj(ms) =>
      && b.Obj?
      && (forall i :: 0 <= i < |ms| ==> HasMatch(ms[i], b.members, nfc))
      && (forall j :: 0 <= j < |b.members| ==> IsMatch(ms, b.members[j], nfc))
  }

  /** One of `ns` has the key of `m` and an equivalent value. */
  ghost predicate HasMatch(m: Member, ns: seq<Member>, nfc: string -> string)
    decreases m
  {
    exists j :: 0 <= j < |ns| && m.key == ns[j].key && Equivalent(m.value, ns[j].value, nfc)
  }

  ghost predicate IsMatch(ms: seq<Member>, n: Member, nfc: string -> string)
    decreases ms
  {
    exists i :: 0 <= i < |ms| && ms[i].key == n.key && Equivalent(ms[i].value, n.value, nfc)
  }

  /** The hypothesis of the induction, for the values inside `a` and `b`. */
  ghost predicate ValuesDecide(ms: seq<Member>, ns: seq<Member>, nfc: string -> string) {
    forall i, j :: 0 <= i < |ms| && 0 <= j < |ns| ==>
      (Normalize(ms[i].value, nfc) == Normalize(ns[j].value, nfc) <==> Equivalent(ms[i].value, ns[j].value, nfc))
  }

  ghost predicate AllMatch(ms: seq<Member>, ns: seq<Member>, nfc: string -> string) {
    && (forall i :: 0 <= i < |ms| ==> HasMatch(ms[i], ns, nfc))
    && (forall j :: 0 <= j < |ns| ==> IsMatch(ms, ns[j], nfc))
  }

  lemma MatchedValue(ms: seq<Member>, ns: seq<Member>, i: nat, nfc: string -> string)
    requires ValuesDecide(ms, ns, nfc) && i < |ms| && HasMatch(ms[i], ns, nfc)
    ensures NormalizeValues(ms, nfc)[i] in NormalizeValues(ns, nfc)
  {
    var j :| 0 <= j < |ns| && ms[i].key == ns[j].key && Equivalent(ms[i].value, ns[j].value, nfc);
    assert NormalizeValues(ns, nfc)[j] == NormalizeValues(ms, nfc)[i];
  }

  lemma MatchingValue(ms: seq<Member>, ns: seq<Member>, j: nat, nfc: string -> string)
    requires ValuesDecide(ms, ns, nfc) && j < |ns| && IsMatch(ms, ns[j], nfc)
    ensures NormalizeValues(ns, nfc)[j] in NormalizeValues(ms, nfc)
  {
    var i :| 0 <= i < |ms| && ms[i].key == ns[j].key && Equivalent(ms[i].value, ns[j].value, nfc);
    assert NormalizeValues(ms, nfc)[i] == NormalizeValues(ns, nfc)[j];
  }

  lemma MatchedSameMembers(ms: seq<Member>, ns: seq<Member>, nfc: string -> string)
    requires ValuesDecide(ms, ns, nfc) && AllMatch(ms, ns, nfc)
    ensures SameMembers(NormalizeValues(ms, nfc), NormalizeValues(ns, nfc))
  {
    var (vs, ws) := (NormalizeValues(ms, nfc), NormalizeValues(ns, nfc));
    forall i | 0 <= i < |vs| ensures vs[i] in ws { MatchedValue(ms, ns, i, nfc); }
    forall j | 0 <= j < |ws| ensures ws[j] in vs { MatchingValue(ms, ns, j, nfc); }
  }

  lemma SameMembersMatched(ms: seq<Member>, ns: seq<Member>, nfc: string -> string)
    requires ValuesDecide(ms, ns, nfc)
    requires SameMembers(NormalizeValues(ms, nfc), NormalizeValues(ns, nfc))
    ensures AllMatch(ms, ns, nfc)
  {
    var (vs, ws) := (NormalizeValues(ms, nfc), NormalizeValues(ns, nfc));
    forall i | 0 <= i < |ms| ensures HasMatch(ms[i], ns, nfc) {
      assert vs[i] in ws;
      var j :| 0 <= j < |ws| && ws[j] == vs[i];
      assert ms[i].key == ns[j].key && Equivalent(ms[i].value, ns[j].value, nfc);
    }
    forall j | 0 <= j < |ns| ensures IsMatch(ms, ns[j], nfc) {
      assert ws[j] in vs;
      var i :| 0 <= i < |vs| && vs[i] == ws[j];
      assert ms[i].key == ns[j].key && Equivalent(ms[i].value, ns[j].value, nfc);
    }
  }

  lemma SortKeepsMembers(vs: seq<Member>)
    ensures SameMembers(SortByKey(vs), vs)
  {
    forall x ensures x in SortByKey(vs) <==> x in vs {
      InSort(vs, x);
    }
  }

  lemma SortedSameMembers(vs: seq<Member>, ws: seq<Member>)
    requires Sorted(SortByKey(vs)) && Sorted(SortByKey(ws))
    ensures SortByKey(vs) == SortByKey(ws) <==> SameMembers(vs, ws)
  {
    SortKeepsMembers(vs);
    SortKeepsMembers(ws);
    if SameMembers(vs, ws) {
      SortedIsUnique(SortByKey(vs), SortByKey(ws));
    }
  }

  /** For values whose keys are in normal form, the canonical form is the same exactly when the values are equal but for
      key order and the spelling of strings. */
  lemma {:induction false} CanonicalIffEquivalent(a: Json, b: Json, nfc: string -> string)
    requires Normalises(nfc) && NormalKeys(a, nfc) && NormalKeys(b, nfc)
    ensures Normalize(a, nfc) == Normalize(b, nfc) <==> Equivalent(a, b, nfc)
    decreases a
  {
    match a
    case Scalar(_) =>
    case Str(_) =>
    case Arr(items) =>
      if b.Arr? && |items| == |b.items| {
        forall i | 0 <= i < |items|
          ensures NormalizeItems(items, nfc)[i] == NormalizeItems(b.items, nfc)[i] <==> Equivalent(items[i], b.items[i], nfc)
        {
          CanonicalIffEquivalent(items[i], b.items[i], nfc);
        }
        SameItems(items, b.items, nfc);
      }
    case Obj(ms) =>
      NormalizedObject(ms, nfc);
      if b.Obj? {
        NormalizedObject(b.members, nfc);
        forall i, j | 0 <= i < |ms| && 0 <= j < |b.members|
          ensures Normalize(ms[i].value, nfc) == Normalize(b.members[j].value, nfc) <==>
                  Equivalent(ms[i].value, b.members[j].value, nfc)
        {
          CanonicalIffEquivalent(ms[i].value, b.members[j].value, nfc);
        }
        ObjectsDecide(ms, b.members, nfc);
      }
  }

  lemma SameItems(items: seq<Json>, others: seq<Json>, nfc: string -> string)
    requires |items| == |others|
    ensures NormalizeItems(items, nfc) == NormalizeItems(others, nfc) <==>
            forall i :: 0 <= i < |items| ==> NormalizeItems(items, nfc)[i] == NormalizeItems(others, nfc)[i]
  {
  }

  lemma ObjectsDecide(ms: seq<Member>, ns: seq<Member>, nfc: string -> string)
    requires NormalKeys(Obj(ms), nfc) && NormalKeys(Obj(ns), nfc) && ValuesDecide(ms, ns, nfc)
    ensures Normalize(Obj(ms), nfc) == Normalize(Obj(ns), nfc) <==> Equivalent(Obj(ms), Obj(ns), nfc)
  {
    NormalizedObject(ms, nfc);
    NormalizedObject(ns, nfc);
    SortedSameMembers(NormalizeValues(ms, nfc), NormalizeValues(ns, nfc));
    if SameMembers(NormalizeValues(ms, nfc), NormalizeValues(ns, nfc)) {
      SameMembersMatched(ms, ns, nfc);
    }
    if Equivalent(Obj(ms), Obj(ns), nfc) {
      MatchedSameMembers(ms, ns, nfc);
    }
  }

  // ---------------------------------------------------------------- normalising again

  /** The normalised value has normal keys and is equivalent to the original. */
  lemma {:induction false} NormalizedIsEquivalent(a: Json, nfc: string -> string)
    requires Normalises(nfc) && NormalKeys(a, nfc)
    ensures NormalKeys(Normalize(a, nfc), nfc)
    ensures Equivalent(a, Normalize(a, nfc), nfc)
  {
    match a
    case Scalar(_) =>
    case Str(_) =>
    case Arr(items) =>
      forall i | 0 <= i < |items|
        ensures NormalKeys(NormalizeItems(items, nfc)[i], nfc) && Equivalent(items[i], NormalizeItems(items, nfc)[i], nfc)
      {
        NormalizedIsEquivalent(items[i], nfc);
      }
    case Obj(ms) =>
      forall i | 0 <= i < |ms|
        ensures NormalKeys(Normalize(ms[i].value, nfc), nfc) && Equivalent(ms[i].value, Normalize(ms[i].value, nfc), nfc)
      {
        NormalizedIsEquivalent(ms[i].value, nfc);
      }
      NormalizedMembers(ms, nfc);
  }

  lemma NormalizedMembers(ms: seq<Member>, nfc: string -> string)
    requires NormalKeys(Obj(ms), nfc)
    requires forall i :: 0 <= i < |ms| ==>
               NormalKeys(Normalize(ms[i].value, nfc), nfc) && Equivalent(ms[i].value, Normalize(ms[i].value, nfc), nfc)
    ensures NormalKeys(Normalize(Obj(ms), nfc), nfc)
    ensures Equivalent(Obj(ms), Normalize(Obj(ms), nfc), nfc)
  {
    NormalizedObject(ms, nfc);
    var values := NormalizeValues(ms, nfc);
    var sorted := SortByKey(values);
    SortedAreDistinct(sorted);
    SortKeepsMembers(values);
    forall j | 0 <= j < |sorted|
      ensures nfc(sorted[j].key) == sorted[j].key && NormalKeys(sorted[j].value, nfc) && IsMatch(ms, sorted[j], nfc)
    {
      assert sorted[j] in values;
      var i :| 0 <= i < |values| && values[i] == sorted[j];
      assert ms[i].key == sorted[j].key && Equivalent(ms[i].value, sorted[j].value, nfc);
    }
    forall i | 0 <= i < |ms| ensures HasMatch(ms[i], sorted, nfc) {
      assert values[i] in sorted;
      var j :| 0 <= j < |sorted| && sorted[j] == values[i];
      assert ms[i].key == sorted[j].key && Equivalent(ms[i].value, sorted[j].value, nfc);
    }
  }

  // ---------------------------------------------------------------- when normalising again changes nothing

  /** Every object is a dictionary: its keys are distinct. */
  ghost predicate Dictionaries(j: Json) {
    match j
    case Scalar(_) => true
    case Str(_) => true
    case Arr(items) => forall i :: 0 <= i < |items| ==> Dictionaries(items[i])
    case Obj(ms) => DistinctKeys(ms) && forall i :: 0 <= i < |ms| ==> Dictionaries(ms[i].value)
  }

  function KeySet(ms: seq<Member>): set<string> {
    set m | m in ms :: m.key
  }

  /** No key before `k` has its normal form. */
  ghost predicate FirstOfName(keys: set<string>, k: string, nfc: string -> string) {
    k in keys && forall l :: l in keys && Before(l, k) ==> nfc(l) != nfc(k)
  }

  /** No key after `k` has its normal form: the value under `k` is the one that is kept. */
  ghost predicate LastOfName(keys: set<string>, k: string, nfc: string -> string) {
    k in keys && forall l :: l in keys && Before(k, l) ==> nfc(l) != nfc(k)
  }

  /** Among the first keys of each normal form, normalisation keeps the order. */
  ghost predicate NamesAscend(keys: set<string>, nfc: string -> string) {
    forall k, l :: FirstOfName(keys, k, nfc) && FirstOfName(keys, l, nfc) && Before(k, l) ==> Before(nfc(k), nfc(l))
  }

  /** Normalisation keeps the order of keys, in the value and in every value inside that is kept. */
  ghost predicate KeysStable(j: Json, nfc: string -> string) {
    match j
    case Scalar(_) => true
    case Str(_) => true
    case Arr(items) => forall i :: 0 <= i < |items| ==> KeysStable(items[i], nfc)
    case Obj(ms) =>
      && NamesAscend(KeySet(ms), nfc)
      && forall i :: 0 <= i < |ms| && LastOfName(KeySet(ms), ms[i].key, nfc) ==> KeysStable(ms[i].value, nfc)
  }

  /** Normalising the value changes nothing. */
  ghost predicate Fixed(j: Json, nfc: string -> string) {
    Normalize(j, nfc) == j
  }

  // ---------------------------------------------------------------- the renamed members

  ghost predicate FirstAt(ms: seq<Member>, i: int, nfc: string -> string)
    requires 0 <= i < |ms|
  {
    forall k :: 0 <= k < i ==> nfc(ms[k].key) != nfc(ms[i].key)
  }

  ghost predicate LastAt(ms: seq<Member>, i: int, nfc: string -> string)
    requires 0 <= i < |ms|
  {
    forall k :: i < k < |ms| ==> nfc(ms[k].key) != nfc(ms[i].key)
  }

  ghost predicate Named(ms: seq<Member>, x: string, nfc: string -> string) {
    exists i :: 0 <= i < |ms| && nfc(ms[i].key) == x
  }

  lemma {:induction false} NamedFirst(ms: seq<Member>, x: string, nfc: string -> string) returns (i: nat)
    requires Named(ms, x, nfc)
    ensures i < |ms| && nfc(ms[i].key) == x && FirstAt(ms, i, nfc)
  {
    var init := ms[..|ms|-1];
    if Named(init, x, nfc) {
      i := NamedFirst(init, x, nfc);
    } else {
      i := |ms| - 1;
      forall k | 0 <= k < i ensures nfc(ms[k].key) != x {
        assert init[k] == ms[k];
      }
    }
  }

  lemma {:induction false} PutKnownKey(dict: seq<Member>, k: string, v: Json, at: nat)
    requires DistinctKeys(dict) && at < |dict| && dict[at].key == k
    ensures Put(dict, k, v) == dict[at := Member(k, v)]
  {
    if at > 0 {
      PutKnownKey(dict[1..], k, v, at - 1);
    }
  }

  /** Putting a new key appends, putting a known one replaces its value. */
  lemma PutKeys(dict: seq<Member>, k: string, v: Json)
    requires DistinctKeys(dict)
    ensures var r := Put(dict, k, v);
            && DistinctKeys(r) && |dict| <= |r|
            && (forall i :: 0 <= i < |dict| ==> r[i] == if dict[i].key == k then Member(k, v) else dict[i])
            && (if k in KeySet(dict) then |r| == |dict| else r == dict + [Member(k, v)])
  {
    if k !in KeySet(dict) {
      PutNewKey(dict, k, v);
    } else {
      var at := Position(dict, k);
      PutKnownKey(dict, k, v, at);
    }
  }

  lemma {:induction false} RenamedNames(ms: seq<Member>, nfc: string -> string)
    ensures DistinctKeys(Renamed(ms, nfc))
    ensures forall x :: x in KeySet(Renamed(ms, nfc)) <==> Named(ms, x, nfc)
  {
    if ms != [] {
      var (init, last) := (ms[..|ms|-1], ms[|ms|-1]);
      RenamedNames(init, nfc);
      PutKeys(Renamed(init, nfc), nfc(last.key), last.value);
      forall x ensures x in KeySet(Renamed(ms, nfc)) <==> Named(ms, x, nfc) {
        NamedOfLast(ms, x, nfc);
        PutNames(Renamed(init, nfc), nfc(last.key), last.value, x);
      }
    }
  }

  lemma NamedOfLast(ms: seq<Member>, x: string, nfc: string -> string)
    requires ms != []
    ensures Named(ms, x, nfc) <==> Named(ms[..|ms|-1], x, nfc) || nfc(ms[|ms|-1].key) == x
  {
    var init := ms[..|ms|-1];
    if i :| 0 <= i < |init| && nfc(init[i].key) == x {
      assert nfc(ms[i].key) == x;
    }
    if i :| 0 <= i < |ms| && nfc(ms[i].key) == x {
      assert i < |init| ==> nfc(init[i].key) == x;
    }
  }

  lemma {:induction false} PutNames(dict: seq<Member>, k: string, v: Json, x: string)
    ensures x in KeySet(Put(dict, k, v)) <==> x in KeySet(dict) || x == k
  {
    if dict == [] {
      assert Put(dict, k, v)[0].key == k;
    } else {
      var r := Put(dict, k, v);
      var rest := if dict[0].key == k then dict[1..] else Put(dict[1..], k, v);
      assert r == [r[0]] + rest && r[0].key == dict[0].key && dict == [dict[0]] + dict[1..];
      KeysOfCons(r[0], rest, x);
      KeysOfCons(dict[0], dict[1..], x);
      if dict[0].key != k {
        PutNames(dict[1..], k, v, x);
      }
    }
  }

  lemma KeysOfCons(m: Member, ms: seq<Member>, x: string)
    ensures x in KeySet([m] + ms) <==> x == m.key || x in KeySet(ms)
  {
    assert m in [m] + ms;
    assert forall n :: n in [m] + ms <==> n == m || n in ms;
  }

  ghost predicate FirstsAscend(ms: seq<Member>, nfc: string -> string) {
    forall i, j :: 0 <= i < j < |ms| && FirstAt(ms, i, nfc) && FirstAt(ms, j, nfc) ==>
      Before(nfc(ms[i].key), nfc(ms[j].key))
  }

  /** A known name takes no new place. */
  lemma KnownNameStays(ms: seq<Member>, nfc: string -> string)
    requires ms != [] && Named(ms[..|ms|-1], nfc(ms[|ms|-1].key), nfc)
    ensures Sorted(Renamed(ms, nfc)) <==> Sorted(Renamed(ms[..|ms|-1], nfc))
  {
    var (init, last) := (ms[..|ms|-1], ms[|ms|-1]);
    RenamedNames(init, nfc);
    PutKeys(Renamed(init, nfc), nfc(last.key), last.value);
    SameKeysSameOrder(Renamed(init, nfc), Renamed(ms, nfc));
  }

  lemma KnownNameIsNoFirst(ms: seq<Member>, nfc: string -> string)
    requires ms != [] && Named(ms[..|ms|-1], nfc(ms[|ms|-1].key), nfc)
    ensures FirstsAscend(ms, nfc) <==> FirstsAscend(ms[..|ms|-1], nfc)
  {
    var (init, last) := (ms[..|ms|-1], ms[|ms|-1]);
    FirstsOfInit(ms, nfc);
    var i := NamedFirst(init, nfc(last.key), nfc);
    assert ms[i] == init[i] && !FirstAt(ms, |ms| - 1, nfc);
    if FirstsAscend(init, nfc) {
      forall i, j | 0 <= i < j < |ms| && FirstAt(ms, i, nfc) && FirstAt(ms, j, nfc)
        ensures Before(nfc(ms[i].key), nfc(ms[j].key))
      {
        assert Before(nfc(init[i].key), nfc(init[j].key));
      }
    }
  }

  /** The renamed members are in order exactly when the first ones of each name are. */
  lemma {:induction false} RenamedSortedIff(ms: seq<Member>, nfc: string -> string)
    ensures Sorted(Renamed(ms, nfc)) <==> FirstsAscend(ms, nfc)
  {
    if ms != [] {
      var (init, last) := (ms[..|ms|-1], ms[|ms|-1]);
      RenamedSortedIff(init, nfc);
      if Named(init, nfc(last.key), nfc) {
        KnownNameStays(ms, nfc);
        KnownNameIsNoFirst(ms, nfc);
      } else {
        NewNameLast(ms, nfc);
      }
    }
  }

  lemma FirstsOfInit(ms: seq<Member>, nfc: string -> string)
    requires ms != []
    ensures forall i :: 0 <= i < |ms| - 1 ==> (FirstAt(ms, i, nfc) <==> FirstAt(ms[..|ms|-1], i, nfc))
    ensures FirstsAscend(ms, nfc) ==> FirstsAscend(ms[..|ms|-1], nfc)
  {
    var init := ms[..|ms|-1];
    forall i | 0 <= i < |init| ensures FirstAt(ms, i, nfc) <==> FirstAt(init, i, nfc) {
      assert forall k :: 0 <= k <= i ==> ms[k] == init[k];
    }
  }

  lemma SameKeysSameOrder(a: seq<Member>, b: seq<Member>)
    requires |a| == |b| && forall i :: 0 <= i < |a| ==> a[i].key == b[i].key
    ensures Sorted(a) <==> Sorted(b)
  {
  }

  ghost predicate AllBefore(ms: seq<Member>, x: string, nfc: string -> string) {
    forall y :: Named(ms, y, nfc) ==> Before(y, x)
  }

  lemma NewNameIsFirst(ms: seq<Member>, nfc: string -> string)
    requires ms != [] && !Named(ms[..|ms|-1], nfc(ms[|ms|-1].key), nfc)
    ensures FirstAt(ms, |ms| - 1, nfc)
  {
    var init := ms[..|ms|-1];
    forall k | 0 <= k < |init| ensures nfc(ms[k].key) != nfc(ms[|ms|-1].key) {
      assert init[k] == ms[k];
    }
  }

  lemma FirstsBeforeNew(ms: seq<Member>, y: string, nfc: string -> string)
    requires ms != [] && !Named(ms[..|ms|-1], nfc(ms[|ms|-1].key), nfc)
    requires FirstsAscend(ms, nfc) && Named(ms[..|ms|-1], y, nfc)
    ensures Before(y, nfc(ms[|ms|-1].key))
  {
    var i := NamedFirst(ms[..|ms|-1], y, nfc);
    FirstsOfInit(ms, nfc);
    NewNameIsFirst(ms, nfc);
    assert FirstAt(ms, i, nfc);
  }

  lemma AscendWithNew(ms: seq<Member>, nfc: string -> string)
    requires ms != [] && !Named(ms[..|ms|-1], nfc(ms[|ms|-1].key), nfc)
    requires FirstsAscend(ms[..|ms|-1], nfc) && AllBefore(ms[..|ms|-1], nfc(ms[|ms|-1].key), nfc)
    ensures FirstsAscend(ms, nfc)
  {
    var init := ms[..|ms|-1];
    FirstsOfInit(ms, nfc);
    forall i, j | 0 <= i < j < |ms| && FirstAt(ms, i, nfc) && FirstAt(ms, j, nfc)
      ensures Before(nfc(ms[i].key), nfc(ms[j].key))
    {
      if j < |init| {
        assert Before(nfc(init[i].key), nfc(init[j].key));
      } else {
        assert Named(init, nfc(init[i].key), nfc);
      }
    }
  }

  /** A new name comes last, and has to come after every other. */
  lemma NewNameLast(ms: seq<Member>, nfc: string -> string)
    requires ms != [] && !Named(ms[..|ms|-1], nfc(ms[|ms|-1].key), nfc)
    requires Sorted(Renamed(ms[..|ms|-1], nfc)) <==> FirstsAscend(ms[..|ms|-1], nfc)
    ensures Sorted(Renamed(ms, nfc)) <==> FirstsAscend(ms, nfc)
  {
    var (init, last) := (ms[..|ms|-1], ms[|ms|-1]);
    var (dict, x) := (Renamed(init, nfc), nfc(last.key));
    FirstsOfInit(ms, nfc);
    NewNameAppends(ms, nfc);
    NamesBefore(init, x, nfc);
    if FirstsAscend(ms, nfc) {
      forall y | Named(init, y, nfc) ensures Before(y, x) {
        FirstsBeforeNew(ms, y, nfc);
      }
    }
    if FirstsAscend(init, nfc) && AllBefore(init, x, nfc) {
      AscendWithNew(ms, nfc);
    }
  }

  lemma NewNameAppends(ms: seq<Member>, nfc: string -> string)
    requires ms != [] && !Named(ms[..|ms|-1], nfc(ms[|ms|-1].key), nfc)
    ensures var dict := Renamed(ms[..|ms|-1], nfc);
            Sorted(Renamed(ms, nfc)) <==> Sorted(dict) && forall d :: d in dict ==> Before(d.key, nfc(ms[|ms|-1].key))
  {
    var (init, last) := (ms[..|ms|-1], ms[|ms|-1]);
    RenamedNames(init, nfc);
    PutKeys(Renamed(init, nfc), nfc(last.key), last.value);
    AppendSorted(Renamed(init, nfc), Member(nfc(last.key), last.value));
  }

  lemma NamesBefore(ms: seq<Member>, x: string, nfc: string -> string)
    ensures AllBefore(ms, x, nfc) <==> forall d :: d in Renamed(ms, nfc) ==> Before(d.key, x)
  {
    RenamedNames(ms, nfc);
    forall y | Named(ms, y, nfc) ensures exists d :: d in Renamed(ms, nfc) && d.key == y {
      assert y in KeySet(Renamed(ms, nfc));
    }
    forall d | d in Renamed(ms, nfc) ensures Named(ms, d.key, nfc) {
      assert d.key in KeySet(Renamed(ms, nfc));
    }
  }

  lemma AppendSorted(dict: seq<Member>, m: Member)
    ensures Sorted(dict + [m]) <==> Sorted(dict) && forall d :: d in dict ==> Before(d.key, m.key)
  {
    var r := dict + [m];
    if Sorted(r) {
      forall d | d in dict ensures Before(d.key, m.key) {
        var i :| 0 <= i < |dict| && dict[i] == d;
        assert Before(r[i].key, r[|dict|].key);
      }
      forall i, j | 0 <= i < j < |dict| ensures Before(dict[i].key, dict[j].key) {
        assert Before(r[i].key, r[j].key);
      }
    }
  }

  /** What is kept under a name is the last member of that name. */
  lemma {:induction false} RenamedValues(ms: seq<Member>, nfc: string -> string, d: Member)
    ensures d in Renamed(ms, nfc) <==>
            exists i :: 0 <= i < |ms| && LastAt(ms, i, nfc) && d == Member(nfc(ms[i].key), ms[i].value)
  {
    if ms != [] {
      var (init, last) := (ms[..|ms|-1], ms[|ms|-1]);
      var x := nfc(last.key);
      RenamedNames(init, nfc);
      RenamedValues(init, nfc, d);
      PutMembers(Renamed(init, nfc), x, last.value, d);
      assert LastAt(ms, |ms| - 1, nfc);
      forall i | 0 <= i < |init| ensures LastAt(ms, i, nfc) <==> LastAt(init, i, nfc) && nfc(ms[i].key) != x {
        LastOfInit(ms, i, nfc);
      }
      if d.key != x && d in Renamed(init, nfc) {
        var i :| 0 <= i < |init| && LastAt(init, i, nfc) && d == Member(nfc(init[i].key), init[i].value);
        assert LastAt(ms, i, nfc) && d == Member(nfc(ms[i].key), ms[i].value);
      }
      if i :| 0 <= i < |ms| && LastAt(ms, i, nfc) && d == Member(nfc(ms[i].key), ms[i].value) {
        assert i < |init| ==> d == Member(nfc(init[i].key), init[i].value) && LastAt(init, i, nfc);
      }
    }
  }

  lemma LastOfInit(ms: seq<Member>, i: nat, nfc: string -> string)
    requires i < |ms| - 1
    ensures LastAt(ms, i, nfc) <==> LastAt(ms[..|ms|-1], i, nfc) && nfc(ms[i].key) != nfc(ms[|ms|-1].key)
  {
    var init := ms[..|ms|-1];
    assert forall k :: 0 <= k < |init| ==> init[k] == ms[k];
  }

  lemma PutMembers(dict: seq<Member>, k: string, v: Json, d: Member)
    requires DistinctKeys(dict)
    ensures d in Put(dict, k, v) <==> d == Member(k, v) || (d in dict && d.key != k)
  {
    PutKeys(dict, k, v);
    var r := Put(dict, k, v);
    if d in dict && d.key != k {
      var i :| 0 <= i < |dict| && dict[i] == d;
      assert r[i] == d;
    }
    if k in KeySet(dict) {
      var m :| m in dict && m.key == k;
      var i :| 0 <= i < |dict| && dict[i] == m;
      assert r[i] == Member(k, v);
    }
  }

  // ---------------------------------------------------------------- objects

  /** In a list sorted by key, first and last of a name mean the same for positions and for keys. */
  lemma SortedPositions(ms: seq<Member>, i: nat, nfc: string -> string)
    requires Sorted(ms) && i < |ms|
    ensures FirstAt(ms, i, nfc) <==> FirstOfName(KeySet(ms), ms[i].key, nfc)
    ensures LastAt(ms, i, nfc) <==> LastOfName(KeySet(ms), ms[i].key, nfc)
  {
    assert ms[i] in ms;
    forall k | 0 <= k < |ms|
      ensures ms[k].key in KeySet(ms)
      ensures Before(ms[k].key, ms[i].key) <==> k < i
      ensures Before(ms[i].key, ms[k].key) <==> i < k
    {
      assert ms[k] in ms;
      BeforeIsTotal(ms[k].key, ms[i].key);
    }
    forall l | l in KeySet(ms) ensures exists k :: 0 <= k < |ms| && ms[k].key == l {
      var m :| m in ms && m.key == l;
    }
  }

  lemma FirstsAscendIff(ms: seq<Member>, nfc: string -> string)
    requires Sorted(ms)
    ensures FirstsAscend(ms, nfc) <==> NamesAscend(KeySet(ms), nfc)
  {
    forall i: nat | i < |ms| ensures FirstAt(ms, i, nfc) <==> FirstOfName(KeySet(ms), ms[i].key, nfc) {
      SortedPositions(ms, i, nfc);
    }
    if FirstsAscend(ms, nfc) {
      forall k, l | FirstOfName(KeySet(ms), k, nfc) && FirstOfName(KeySet(ms), l, nfc) && Before(k, l)
        ensures Before(nfc(k), nfc(l))
      {
        var i := Position(ms, k);
        var j := Position(ms, l);
        SortedPosition(ms, i, j);
      }
    }
    if NamesAscend(KeySet(ms), nfc) {
      forall i, j | 0 <= i < j < |ms| && FirstAt(ms, i, nfc) && FirstAt(ms, j, nfc)
        ensures Before(nfc(ms[i].key), nfc(ms[j].key))
      {
        assert Before(ms[i].key, ms[j].key);
      }
    }
  }

  lemma Position(ms: seq<Member>, k: string) returns (i: nat)
    requires k in KeySet(ms)
    ensures i < |ms| && ms[i].key == k
  {
    var m :| m in ms && m.key == k;
    i :| 0 <= i < |ms| && ms[i] == m;
  }

  lemma SortedPosition(ms: seq<Member>, i: nat, j: nat)
    requires Sorted(ms) && i < |ms| && j < |ms| && Before(ms[i].key, ms[j].key)
    ensures i < j
  {
    BeforeIsTotal(ms[i].key, ms[j].key);
  }

  /** A dictionary with normal keys is a fixed point exactly when it is sorted and its values are fixed points. */
  lemma DictionaryFixedIff(ms: seq<Member>, nfc: string -> string)
    requires DistinctKeys(ms) && forall i :: 0 <= i < |ms| ==> nfc(ms[i].key) == ms[i].key
    ensures Fixed(Obj(ms), nfc) <==> Sorted(ms) && forall i :: 0 <= i < |ms| ==> Fixed(ms[i].value, nfc)
  {
    var values := NormalizeValues(ms, nfc);
    var sorted := SortByKey(values);
    SortSorts(values);
    SortKeepsMembers(values);
    SortedAreDistinct(sorted);
    forall i | 0 <= i < |sorted| ensures nfc(sorted[i].key) == sorted[i].key {
      assert sorted[i] in values;
    }
    RenamedIsSame(sorted, nfc);
    assert Normalize(Obj(ms), nfc) == Obj(sorted);
    SameKeysSameOrder(ms, values);
    if Sorted(ms) {
      SortedIsUnique(sorted, values);
      ValuesFixedIff(ms, nfc);
    }
  }

  lemma ValuesFixedIff(ms: seq<Member>, nfc: string -> string)
    ensures NormalizeValues(ms, nfc) == ms <==> forall i :: 0 <= i < |ms| ==> Fixed(ms[i].value, nfc)
  {
    var values := NormalizeValues(ms, nfc);
    if forall i :: 0 <= i < |ms| ==> Fixed(ms[i].value, nfc) {
      forall i | 0 <= i < |ms| ensures values[i] == ms[i] {
        assert Fixed(ms[i].value, nfc);
      }
    }
    if values == ms {
      forall i | 0 <= i < |ms| ensures Fixed(ms[i].value, nfc) {
        assert values[i] == ms[i];
      }
    }
  }

  /** The members of an object as they are put into the dictionary of its normal form. */
  function Ordered(ms: seq<Member>, nfc: string -> string): seq<Member> {
    SortByKey(NormalizeValues(ms, nfc))
  }

  lemma OrderedMembers(ms: seq<Member>, nfc: string -> string)
    requires DistinctKeys(ms)
    ensures Sorted(Ordered(ms, nfc)) && KeySet(Ordered(ms, nfc)) == KeySet(ms)
    ensures forall m :: m in Ordered(ms, nfc) <==>
                          exists i :: 0 <= i < |ms| && m == Member(ms[i].key, Normalize(ms[i].value, nfc))
  {
    var values := NormalizeValues(ms, nfc);
    SortSorts(values);
    SortKeepsMembers(values);
    forall x ensures x in KeySet(Ordered(ms, nfc)) <==> x in KeySet(ms) {
      if x in KeySet(ms) {
        var i := Position(ms, x);
        assert values[i] in Ordered(ms, nfc);
      }
      if x in KeySet(Ordered(ms, nfc)) {
        var m :| m in Ordered(ms, nfc) && m.key == x;
        var i :| 0 <= i < |values| && values[i] == m;
        assert ms[i] in ms;
      }
    }
  }

  /** The normal form of an object again: fixed exactly when its names ascend and what is kept is fixed. */
  lemma ObjectFixedIff(ms: seq<Member>, nfc: string -> string)
    requires Normalises(nfc) && DistinctKeys(ms)
    ensures Fixed(Normalize(Obj(ms), nfc), nfc) <==>
            && NamesAscend(KeySet(ms), nfc)
            && forall i :: 0 <= i < |ms| && LastOfName(KeySet(ms), ms[i].key, nfc) ==> Fixed(Normalize(ms[i].value, nfc), nfc)
  {
    var s := Ordered(ms, nfc);
    var dict := Renamed(s, nfc);
    OrderedMembers(ms, nfc);
    RenamedNames(s, nfc);
    forall i | 0 <= i < |dict| ensures nfc(dict[i].key) == dict[i].key {
      assert dict[i] in dict;
      assert dict[i].key in KeySet(dict);
    }
    DictionaryFixedIff(dict, nfc);
    RenamedSortedIff(s, nfc);
    FirstsAscendIff(s, nfc);
    KeptValues(ms, nfc);
  }

  lemma KeptValues(ms: seq<Member>, nfc: string -> string)
    requires DistinctKeys(ms)
    ensures var dict := Renamed(Ordered(ms, nfc), nfc);
            (forall i :: 0 <= i < |dict| ==> Fixed(dict[i].value, nfc)) <==>
            forall i :: 0 <= i < |ms| && LastOfName(KeySet(ms), ms[i].key, nfc) ==> Fixed(Normalize(ms[i].value, nfc), nfc)
  {
    var s := Ordered(ms, nfc);
    var dict := Renamed(s, nfc);
    if forall i :: 0 <= i < |dict| ==> Fixed(dict[i].value, nfc) {
      forall i | 0 <= i < |ms| && LastOfName(KeySet(ms), ms[i].key, nfc) ensures Fixed(Normalize(ms[i].value, nfc), nfc) {
        var j := KeptMember(ms, i, nfc);
        assert Fixed(dict[j].value, nfc);
      }
    }
    if forall i :: 0 <= i < |ms| && LastOfName(KeySet(ms), ms[i].key, nfc) ==> Fixed(Normalize(ms[i].value, nfc), nfc) {
      forall j: nat | j < |dict| ensures Fixed(dict[j].value, nfc) {
        var i := KeptFrom(ms, j, nfc);
        assert Fixed(Normalize(ms[i].value, nfc), nfc);
      }
    }
  }

  lemma KeptMember(ms: seq<Member>, i: nat, nfc: string -> string) returns (j: nat)
    requires DistinctKeys(ms) && i < |ms| && LastOfName(KeySet(ms), ms[i].key, nfc)
    ensures var dict := Renamed(Ordered(ms, nfc), nfc); j < |dict| && dict[j].value == Normalize(ms[i].value, nfc)
  {
    var s := Ordered(ms, nfc);
    OrderedMembers(ms, nfc);
    var m := Member(ms[i].key, Normalize(ms[i].value, nfc));
    assert m in s;
    var k :| 0 <= k < |s| && s[k] == m;
    SortedPositions(s, k, nfc);
    var d := Member(nfc(m.key), m.value);
    RenamedValues(s, nfc, d);
    j :| 0 <= j < |Renamed(s, nfc)| && Renamed(s, nfc)[j] == d;
  }

  lemma KeptFrom(ms: seq<Member>, j: nat, nfc: string -> string) returns (i: nat)
    requires DistinctKeys(ms) && j < |Renamed(Ordered(ms, nfc), nfc)|
    ensures i < |ms| && LastOfName(KeySet(ms), ms[i].key, nfc)
    ensures Renamed(Ordered(ms, nfc), nfc)[j].value == Normalize(ms[i].value, nfc)
  {
    var s := Ordered(ms, nfc);
    OrderedMembers(ms, nfc);
    var d := Renamed(s, nfc)[j];
    RenamedValues(s, nfc, d);
    var k: nat :| k < |s| && LastAt(s, k, nfc) && d == Member(nfc(s[k].key), s[k].value);
    SortedPositions(s, k, nfc);
    assert s[k] in s;
    i :| 0 <= i < |ms| && s[k] == Member(ms[i].key, Normalize(ms[i].value, nfc));
  }

  // ---------------------------------------------------------------- the exact condition

  /** Re-encoding what was decoded from canonical bytes gives the same bytes exactly when normalisation keeps the order of
      keys, in every object that is kept. */
  lemma {:induction false} StableIffKeysStable(a: Json, nfc: string -> string)
    requires Normalises(nfc) && Dictionaries(a)
    ensures Fixed(Normalize(a, nfc), nfc) <==> KeysStable(a, nfc)
    decreases a
  {
    match a
    case Scalar(_) =>
    case Str(_) =>
    case Arr(items) =>
      forall i | 0 <= i < |items| ensures Fixed(Normalize(items[i], nfc), nfc) <==> KeysStable(items[i], nfc) {
        StableIffKeysStable(items[i], nfc);
      }
      ArrayFixedIff(items, nfc);
    case Obj(ms) =>
      forall i | 0 <= i < |ms| ensures Fixed(Normalize(ms[i].value, nfc), nfc) <==> KeysStable(ms[i].value, nfc) {
        StableIffKeysStable(ms[i].value, nfc);
      }
      ObjectFixedIff(ms, nfc);
  }

  lemma ArrayFixedIff(items: seq<Json>, nfc: string -> string)
    ensures Fixed(Normalize(Arr(items), nfc), nfc) <==> forall i :: 0 <= i < |items| ==> Fixed(Normalize(items[i], nfc), nfc)
  {
    var once := NormalizeItems(items, nfc);
    var twice := NormalizeItems(once, nfc);
    assert Normalize(Normalize(Arr(items), nfc), nfc) == Arr(twice);
    if forall i :: 0 <= i < |items| ==> Fixed(Normalize(items[i], nfc), nfc) {
      forall i | 0 <= i < |items| ensures twice[i] == once[i] {
        assert Fixed(Normalize(items[i], nfc), nfc);
      }
    }
    if twice == once {
      forall i | 0 <= i < |items| ensures Fixed(Normalize(items[i], nfc), nfc) {
        assert twice[i] == once[i];
      }
    }
  }

  /** Keys in normal form are enough. */
  lemma {:induction false} NormalKeysAreStable(a: Json, nfc: string -> string)
    requires NormalKeys(a, nfc)
    ensures KeysStable(a, nfc) && Dictionaries(a)
  {
    match a
    case Scalar(_) =>
    case Str(_) =>
    case Arr(items) =>
      forall i | 0 <= i < |items| ensures KeysStable(items[i], nfc) && Dictionaries(items[i]) {
        NormalKeysAreStable(items[i], nfc);
      }
    case Obj(ms) =>
      forall i | 0 <= i < |ms| ensures KeysStable(ms[i].value, nfc) && Dictionaries(ms[i].value) {
        NormalKeysAreStable(ms[i].value, nfc);
      }
      forall k | k in KeySet(ms) ensures nfc(k) == k {
        var i := Position(ms, k);
      }
  }

  /** Two keys that normalisation reverses are not. */
  lemma ReversedKeysAreUnstable(k: string, l: string, v: Json, w: Json, nfc: string -> string)
    requires Before(k, l) && Before(nfc(l), nfc(k))
    ensures !KeysStable(Obj([Member(k, v), Member(l, w)]), nfc)
  {
    var ms := [Member(k, v), Member(l, w)];
    assert ms[0] in ms && ms[1] in ms;
    BeforeIsTotal(k, l);
    BeforeIsTotal(k, k);
    BeforeIsTotal(l, l);
    BeforeIsTotal(nfc(k), nfc(l));
    assert KeySet(ms) == {k, l};
    assert FirstOfName(KeySet(ms), k, nfc) && FirstOfName(KeySet(ms), l, nfc);
  }
}
