/** Reconciling the spans that a model reports with the document text. */
module Extractor {
  import opened Domain
  import opened Records

  // ---------------------------------------------------------------- occurrences of a quote

  predicate OccursAt(text: string, quote: string, i: int) {
    0 <= i && i + |quote| <= |text| && text[i..i+|quote|] == quote
  }

  /** Python's `text.find(quote, from)`. */
  function Find(text: string, quote: string, from: nat): (r: Option<nat>)
    requires from <= |text|
    ensures r.Some? ==> from <= r.value && OccursAt(text, quote, r.value)
    ensures r.Some? ==> forall i :: from <= i < r.value ==> !OccursAt(text, quote, i)
    ensures r.None? ==> forall i :: from <= i ==> !OccursAt(text, quote, i)
    decreases |text| - from
  {
    if OccursAt(text, quote, from) then Some(from)
    else if from == |text| then None
    else Find(text, quote, from + 1)
  }

  /** Python's `text.count(quote)`: occurrences from the left, each search starting behind the previous one. */
  function Count(text: string, quote: string, from: nat): nat
    requires quote != "" && from <= |text|
    decreases |text| - from
  {
    var first := Find(text, quote, from);
    if first.None? then 0 else 1 + Count(text, quote, first.value + |quote|)
  }

  /** Occurrences that do not overlap, in order, from a position on. */
  ghost predicate DisjointOccurrences(ps: seq<nat>, text: string, quote: string, from: nat) {
    && (forall i :: 0 <= i < |ps| ==> from <= ps[i] && OccursAt(text, quote, ps[i]))
    && (forall i :: 0 < i < |ps| ==> ps[i-1] + |quote| <= ps[i])
  }

  lemma {:induction false} DisjointAreOrdered(ps: seq<nat>, text: string, quote: string, from: nat, i: nat)
    requires DisjointOccurrences(ps, text, quote, from) && 0 < i < |ps|
    ensures ps[0] + |quote| <= ps[i]
    decreases i
  {
    if i > 1 {
      DisjointAreOrdered(ps, text, quote, from, i - 1);
    }
  }

  lemma RestIsDisjoint(ps: seq<nat>, text: string, quote: string, from: nat, next: nat)
    requires DisjointOccurrences(ps, text, quote, from) && ps != [] && next <= ps[0] + |quote|
    ensures DisjointOccurrences(ps[1..], text, quote, next)
  {
    var rest := ps[1..];
    forall i | 0 <= i < |rest| ensures next <= rest[i] && OccursAt(text, quote, rest[i]) {
      assert rest[i] == ps[i+1];
      DisjointAreOrdered(ps, text, quote, from, i + 1);
    }
    forall i | 0 < i < |rest| ensures rest[i-1] + |quote| <= rest[i] {
      assert rest[i-1] == ps[i] && rest[i] == ps[i+1];
    }
  }

  lemma FirstIsFound(p: nat, text: string, quote: string, from: nat) returns (next: nat)
    requires quote != "" && from <= p && OccursAt(text, quote, p)
    ensures next <= p + |quote| <= |text| && Count(text, quote, from) == 1 + Count(text, quote, next)
  {
    next := Find(text, quote, from).value + |quote|;
  }

  /** Counting from the left finds as many disjoint occurrences as there can be. */
  lemma {:induction false} CountIsLargest(ps: seq<nat>, text: string, quote: string, from: nat)
    requires quote != "" && from <= |text| && DisjointOccurrences(ps, text, quote, from)
    ensures |ps| <= Count(text, quote, from)
    decreases |ps|
  {
    if ps != [] {
      var next := FirstIsFound(ps[0], text, quote, from);
      RestIsDisjoint(ps, text, quote, from, next);
      CountIsLargest(ps[1..], text, quote, next);
    }
  }

  lemma {:induction false} CountIsReached(text: string, quote: string, from: nat) returns (ps: seq<nat>)
    requires quote != "" && from <= |text|
    ensures DisjointOccurrences(ps, text, quote, from) && |ps| == Count(text, quote, from)
    decreases |text| - from
  {
    var first := Find(text, quote, from);
    if first.None? {
      ps := [];
    } else {
      var rest := CountIsReached(text, quote, first.value + |quote|);
      ps := [first.value] + rest;
    }
  }

  /** The quote occurs, and every occurrence overlaps the first one. */
  ghost predicate OnlyOverlaps(text: string, quote: string, first: int) {
    && OccursAt(text, quote, first)
    && forall i :: OccursAt(text, quote, i) ==> first <= i < first + |quote|
  }

  lemma CountOneIff(text: string, quote: string)
    requires quote != ""
    ensures Count(text, quote, 0) == 1 <==> exists first :: OnlyOverlaps(text, quote, first)
    ensures Count(text, quote, 0) == 1 ==> Find(text, quote, 0).Some? && OnlyOverlaps(text, quote, Find(text, quote, 0).value)
    ensures Count(text, quote, 0) == 0 <==> forall i :: !OccursAt(text, quote, i)
  {
    var found := Find(text, quote, 0);
    forall first | OnlyOverlaps(text, quote, first) ensures found.Some? {
      assert OccursAt(text, quote, first);
    }
    if found.Some? {
      var next := Find(text, quote, found.value + |quote|);
      assert next.None? ==> OnlyOverlaps(text, quote, found.value);
      if first :| OnlyOverlaps(text, quote, first) {
        assert OccursAt(text, quote, found.value);
        assert found.value == first;
        assert next.None?;
      }
    }
  }

  // ---------------------------------------------------------------- candidates

  datatype Candidate = Candidate(creditedPartyId: Option<string>, obligeeText: Option<string>, displayText: string,
                                 roleLabel: string, surface: string, cardType: string, ordinal: Option<int>,
                                 quote: string, start: Option<int>, end: Option<int>, confidence: real)

  datatype Rejection = EmptyQuote | SpanMismatch | QuoteNotFound | AmbiguousQuote | BadSurface | BadCardType | BadOrdinal

  datatype Span = Span(start: int, end: int)

  datatype Extracted = Extracted(creditedPartyId: Option<string>, obligeeText: Option<string>, displayText: string,
                                 roleLabel: string, surface: CreditSurface, cardType: CardType,
                                 position: Option<CardPosition>, span: Span, quote: string, confidence: real,
                                 status: ObligationStatus)

  function Abs(x: int): nat {
    if x < 0 then -x else x
  }

  /** The reported span is right as it stands. */
  predicate Exact(text: string, quote: string, start: int, end: int) {
    0 <= start < end <= |text| && text[start..end] == quote
  }

  function Located(text: string, quote: string): Span {
    var first := Find(text, quote, 0);
    if first.Some? then Span(first.value, first.value + |quote|) else Span(0, 0)
  }

  /** The span kept for a candidate, or the reason for refusing it. */
  function Reconcile(text: string, c: Candidate): Result<Span, Rejection> {
    if c.quote == "" then Err(EmptyQuote)
    else if c.start.Some? && c.end.Some? then
      if Exact(text, c.quote, c.start.value, c.end.value) then Ok(Span(c.start.value, c.end.value))
      else if Count(text, c.quote, 0) == 1 && Abs(c.start.value - Located(text, c.quote).start) <= 5
        then Ok(Located(text, c.quote))
      else Err(SpanMismatch)
    else if Count(text, c.quote, 0) == 1 then Ok(Located(text, c.quote))
    else Err(if Count(text, c.quote, 0) == 0 then QuoteNotFound else AmbiguousQuote)
  }

  function ParseSurface(s: string): Option<CreditSurface> {
    match s
    case "MAIN_TITLES" => Some(MAIN_TITLES)
    case "END_CARDS" => Some(END_CARDS)
    case "END_CRAWL" => Some(END_CRAWL)
    case "BILLING_BLOCK" => Some(BILLING_BLOCK)
    case _ => None
  }

  function ParseCardType(s: string): Option<CardType> {
    match s
    case "SOLO" => Some(SOLO)
    case "SHARED" => Some(SHARED)
    case "CRAWL" => Some(CRAWL)
    case _ => None
  }

  /** What becomes of one candidate; `upper` is Python's upper-casing. */
  function Outcome(text: string, c: Candidate, upper: string -> string): Result<Extracted, Rejection> {
    var span := Reconcile(text, c);
    if span.Err? then Err(span.error) else
    var surface := ParseSurface(upper(c.surface));
    if surface.None? then Err(BadSurface) else
    var cardType := ParseCardType(upper(c.cardType));
    if cardType.None? then Err(BadCardType) else
    if c.ordinal.Some? && c.ordinal.value < 1 then Err(BadOrdinal) else
    Ok(Extracted(c.creditedPartyId, c.obligeeText, c.displayText, c.roleLabel, surface.value, cardType.value,
                 if c.ordinal.Some? then Some(AbsolutePosition(c.ordinal.value)) else None,
                 span.value, c.quote, c.confidence, ObligationStatus.Candidate))
  }

  function Accepted(text: string, cs: seq<Candidate>, upper: string -> string): seq<Extracted> {
    if cs == [] then []
    else
      var last := Outcome(text, cs[|cs|-1], upper);
      Accepted(text, cs[..|cs|-1], upper) + if last.Ok? then [last.value] else []
  }

  function Rejected(text: string, cs: seq<Candidate>, upper: string -> string): seq<Rejection> {
    if cs == [] then []
    else
      var last := Outcome(text, cs[|cs|-1], upper);
      Rejected(text, cs[..|cs|-1], upper) + if last.Err? then [last.error] else []
  }

  /** The candidate loop. */
  method Extract(text: string, candidates: seq<Candidate>, upper: string -> string)
    returns (obligations: seq<Extracted>, rejections: seq<Rejection>)
    ensures obligations == Accepted(text, candidates, upper)
    ensures rejections == Rejected(text, candidates, upper)
    ensures |obligations| + |rejections| == |candidates|
  {
    obligations, rejections := [], [];
    for i := 0 to |candidates|
      invariant obligations == Accepted(text, candidates[..i], upper)
      invariant rejections == Rejected(text, candidates[..i], upper)
      invariant |obligations| + |rejections| == i
    {
      var c := candidates[i];
      assert candidates[..i+1][..i] == candidates[..i];
      var span := ReconcileSpan(text, c);
      if span.Err? {
        rejections := rejections + [span.error];
        continue;
      }
      var surface := ParseSurface(upper(c.surface));
      if surface.None? {
        rejections := rejections + [BadSurface];
        continue;
      }
      var cardType := ParseCardType(upper(c.cardType));
      if cardType.None? {
        rejections := rejections + [BadCardType];
        continue;
      }
      var position: Option<CardPosition> := None;
      if c.ordinal.Some? {
        if c.ordinal.value < 1 {
          rejections := rejections + [BadOrdinal];
          continue;
        }
        position := Some(AbsolutePosition(c.ordinal.value));
      }
      obligations := obligations + [Extracted(c.creditedPartyId, c.obligeeText, c.displayText, c.roleLabel,
                                              surface.value, cardType.value, position, span.value, c.quote,
                                              c.confidence, ObligationStatus.Candidate)];
    }
    assert candidates[..|candidates|] == candidates;
  }

  method ReconcileSpan(text: string, c: Candidate) returns (r: Result<Span, Rejection>)
    ensures r == Reconcile(text, c)
  {
    if c.quote == "" {
      return Err(EmptyQuote);
    }
    var count := Count(text, c.quote, 0);
    CountOneIff(text, c.quote);
    if c.start.Some? && c.end.Some? {
      var start, end := c.start.value, c.end.value;
      if start >= 0 && end <= |text| && start < end && text[start..end] == c.quote {
        return Ok(Span(start, end));
      }
      if count == 1 && Abs(start - Find(text, c.quote, 0).value) <= 5 {
        start := Find(text, c.quote, 0).value;
        end := start + |c.quote|;
        return Ok(Span(start, end));
      }
      return Err(SpanMismatch);
    }
    if count == 1 {
      var start := Find(text, c.quote, 0).value;
      return Ok(Span(start, start + |c.quote|));
    }
    return Err(if count == 0 then QuoteNotFound else AmbiguousQuote);
  }

  // ---------------------------------------------------------------- grounding

  /** The span of an accepted candidate holds its quote. */
  lemma SpanIsGrounded(text: string, c: Candidate)
    requires Reconcile(text, c).Ok?
    ensures var s := Reconcile(text, c).value; c.quote != "" && Exact(text, c.quote, s.start, s.end)
  {
    CountOneIff(text, c.quote);
  }

  /** A reported span is kept if it is right, and otherwise moved by at most five characters to an occurrence that every
      other occurrence overlaps; nothing else is accepted. */
  lemma ReportedSpan(text: string, c: Candidate, s: Span)
    requires c.quote != "" && c.start.Some? && c.end.Some?
    ensures Reconcile(text, c) == Ok(s) <==>
            if Exact(text, c.quote, c.start.value, c.end.value) then s == Span(c.start.value, c.end.value)
            else OnlyOverlaps(text, c.quote, s.start) && s.end == s.start + |c.quote| && Abs(c.start.value - s.start) <= 5
  {
    CountOneIff(text, c.quote);
    if OnlyOverlaps(text, c.quote, s.start) {
      var first := Find(text, c.quote, 0);
      assert OccursAt(text, c.quote, s.start);
      assert OccursAt(text, c.quote, first.value);
    }
  }

  /** Without a reported span a quote is located exactly when all its occurrences overlap the first. */
  lemma UnreportedSpan(text: string, c: Candidate, s: Span)
    requires c.quote != "" && (c.start.None? || c.end.None?)
    ensures Reconcile(text, c) == Ok(s) <==> OnlyOverlaps(text, c.quote, s.start) && s.end == s.start + |c.quote|
    ensures Reconcile(text, c) == Err(QuoteNotFound) <==> forall i :: !OccursAt(text, c.quote, i)
  {
    CountOneIff(text, c.quote);
    if OnlyOverlaps(text, c.quote, s.start) {
      var first := Find(text, c.quote, 0);
      assert OccursAt(text, c.quote, s.start);
      assert OccursAt(text, c.quote, first.value);
    }
  }

  /** Every extracted obligation is a CANDIDATE whose quote is the text of its span. */
  lemma {:induction false} AcceptedAreGrounded(text: string, cs: seq<Candidate>, upper: string -> string, o: Extracted)
    requires o in Accepted(text, cs, upper)
    ensures o.status == ObligationStatus.Candidate
    ensures o.quote != "" && Exact(text, o.quote, o.span.start, o.span.end)
    ensures exists c :: c in cs && Outcome(text, c, upper) == Ok(o)
  {
    var (init, last) := (cs[..|cs|-1], cs[|cs|-1]);
    if o in Accepted(text, init, upper) {
      AcceptedAreGrounded(text, init, upper, o);
    } else {
      assert last in cs && Outcome(text, last, upper) == Ok(o);
      SpanIsGrounded(text, last);
    }
  }
}
