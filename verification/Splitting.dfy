/** A journey played in several pieces against the same journey played at once
    (backend/internal/simulation/model.go). */
module Splitting {
  import opened Wrappers
  import opened Energy
  import opened Shares
  import opened Burning
  import opened Windows
  import opened Journeys

  /** Burning two lists of spans is burning the first and, unless the vehicle ran out, the second. */
  lemma {:induction false} BurnInTwo(ss: seq<Source>, a: seq<Span>, b: seq<Span>)
    requires ValidSources(ss)
    ensures Burn(ss, a + b) == Then(Burn(ss, a), Burn(Burn(ss, a).sources, b))
    decreases |a|
  {
    if a == [] {
      assert a + b == b;
    } else {
      var first := BurnSpan(ss, a[0]);
      assert (a + b)[1..] == a[1..] + b && (a + b)[0] == a[0];
      BurnInTwo(first.sources, a[1..], b);
      ThenInOrder(first, Burn(first.sources, a[1..]), Burn(Burn(first.sources, a[1..]).sources, b));
    }
  }

  lemma {:induction false} BurnOfOneSpan(ss: seq<Source>, span: Span)
    requires ValidSources(ss)
    ensures Burn(ss, [span]) == BurnSpan(ss, span)
  {
    var first := BurnSpan(ss, span);
    assert [span][1..] == [];
    assert first.exhausted + [] == first.exhausted;
  }

  lemma {:induction false} BurnOfTwoSpans(ss: seq<Source>, a: Span, b: Span)
    requires ValidSources(ss)
    ensures Burn(ss, [a, b]) == Then(BurnSpan(ss, a), BurnSpan(BurnSpan(ss, a).sources, b))
  {
    assert [a, b][1..] == [b];
    BurnOfOneSpan(BurnSpan(ss, a).sources, b);
  }

  lemma {:induction false} PacedInOrder(mode: Mode, a: Burned, b: Burned)
    ensures Then(Paced(mode, a), Paced(mode, b)) == Paced(mode, Then(a, b))
  {
  }

  lemma {:induction false} CutSpanIsConsumedInTwo(ss: seq<Source>, mode: Mode, from: int, between: int, to: int)
    requires ValidSources(ss) && Spends(mode) && from < between < to
    ensures Burn(ss, [Span(mode, from, between), Span(mode, between, to)]) ==
            Paced(mode, ConsumedInTwo(ss, mode, from, between - from, to - between))
  {
    var a, b := Span(mode, from, between), Span(mode, between, to);
    BurnOfTwoSpans(ss, a, b);
    PacedInOrder(mode, Consumed(ss, a), Consumed(Consumed(ss, a).sources, b));
  }

  /** One span may be cut in two exactly at the safe moments of its window. */
  lemma {:induction false} BurnOfCutSpan(ss: seq<Source>, mode: Mode, from: int, between: int, to: int)
    requires ValidSources(ss) && Spends(mode) && from < between < to
    ensures Burn(ss, [Span(mode, from, between), Span(mode, between, to)]) == Burn(ss, [Span(mode, from, to)])
            <==> SafeCutOf(ss, mode, between - from)
  {
    var w1, w2 := between - from, to - between;
    CutSpanIsConsumedInTwo(ss, mode, from, between, to);
    BurnOfOneSpan(ss, Span(mode, from, to));
    if SafeCutOf(ss, mode, w1) {
      SafeCutAgrees(ss, mode, from, w1, w2);
    } else {
      UnsafeCutDiffers(ss, mode, from, w1, w2);
    }
  }

  // ---------- whole journeys ----------

  /** A journey played to a moment and then onward is the journey played at once: the same reserves, the same
      sources used up in the same order, the same run-out. Once the vehicle has run out it stands still. */
  lemma {:induction false} JourneyInTwo(m: Model, before: seq<Span>, after: seq<Span>, between: int, target: int)
    requires StateUsable(m) && !m.depleted && m.processedAt <= between <= target
    requires SpansMeet(m.processedAt, before, between) && SpansMeet(between, after, target)
    ensures SpansMeet(m.processedAt, before + after, target)
    ensures var whole, first := Journey(m, before + after, target), Journey(m, before, between);
            && whole.Ok? && first.Ok?
            && var rest := Journey(first.value.1, after, target);
               && rest.Ok?
               && rest.value.1.sources == whole.value.1.sources
               && rest.value.1.depleted == whole.value.1.depleted
               && first.value.0.exhausted + rest.value.0.exhausted == whole.value.0.exhausted
               && whole.value.0.depletedBy ==
                  (if first.value.1.depleted then first.value.0 else rest.value.0).depletedBy
               && (first.value.1.depleted ==> rest.value.0 == Motion(whole.value.0.holding, [], None))
  {
    SpansMeetInTwo(m.processedAt, before, after, between, target);
    BurnInTwo(m.sources, before, after);
    RunsOutInside(m.sources, before, m.processedAt, between);
  }

  lemma {:induction false} SpansMeetInTwo(processedAt: int, before: seq<Span>, after: seq<Span>, between: int,
                                          target: int)
    requires SpansMeet(processedAt, before, between) && SpansMeet(between, after, target)
    ensures SpansMeet(processedAt, before + after, target)
  {
    var both := before + after;
    forall i | 0 < i < |both|
      ensures both[i - 1].to == both[i].from
    {
      if i > |before| {
        assert both[i - 1] == after[i - |before| - 1] && both[i] == after[i - |before|];
      }
    }
  }

  /** The vehicle runs out no earlier than its spans begin and no later than they end. */
  lemma {:induction false} RunsOutInside(ss: seq<Source>, spans: seq<Span>, from: int, to: int)
    requires ValidSources(ss) && SpansMeet(from, spans, to)
    ensures Burn(ss, spans).ranOut.Some? ==> from <= Burn(ss, spans).ranOut.value <= to
    ensures from <= to
    decreases |spans|
  {
    var rest := spans[1..];
    if rest == [] {
      assert spans == [spans[0]];
    } else {
      assert SpansMeet(spans[0].to, rest, to);
      RunsOutInside(BurnSpan(ss, spans[0]).sources, rest, spans[0].to, to);
    }
  }

  /** Driving energy does not depend on when it is read: T0 to T1 and on to T2 leaves what T0 to T2 leaves,
      wherever the vehicle runs out. */
  lemma {:induction false} DrivingIsSplitInvariant(m: Model, between: int, target: int)
    requires StateUsable(m) && m.processedAt < between < target
    ensures var whole := Journey(m, [Span(Driving, m.processedAt, target)], target);
            var first := Journey(m, [Span(Driving, m.processedAt, between)], between);
            && whole.Ok? && first.Ok?
            && var rest := Journey(first.value.1, [Span(Driving, between, target)], target);
               && rest.Ok?
               && rest.value.1.sources == whole.value.1.sources
               && rest.value.1.depleted == whole.value.1.depleted
               && first.value.0.exhausted + rest.value.0.exhausted == whole.value.0.exhausted
               && whole.value.0.depletedBy ==
                  (if first.value.0.depletedBy.Some? then first.value.0 else rest.value.0).depletedBy
  {
    if !m.depleted {
      var a, b := [Span(Driving, m.processedAt, between)], [Span(Driving, between, target)];
      OneWindowOrTwo(m, a, b, between, target);
      JourneyInTwo(m, a, b, between, target);
    }
  }

  lemma {:induction false} OneWindowOrTwo(m: Model, a: seq<Span>, b: seq<Span>, between: int, target: int)
    requires StateUsable(m) && m.processedAt < between < target
    requires a == [Span(Driving, m.processedAt, between)] && b == [Span(Driving, between, target)]
    ensures Journey(m, a + b, target) == Journey(m, [Span(Driving, m.processedAt, target)], target)
  {
    assert a + b == [Span(Driving, m.processedAt, between), Span(Driving, between, target)];
    DrivingCutsAreSafeOf(m.sources, between - m.processedAt);
    BurnOfCutSpan(m.sources, Driving, m.processedAt, between, target);
    SameBurnSameJourney(m, a + b, [Span(Driving, m.processedAt, target)], target);
  }

  lemma {:induction false} SameBurnSameJourney(m: Model, a: seq<Span>, b: seq<Span>, target: int)
    requires StateUsable(m) && SpansMeet(m.processedAt, a, target) && SpansMeet(m.processedAt, b, target)
    requires Burn(m.sources, a) == Burn(m.sources, b)
    ensures Journey(m, a, target) == Journey(m, b, target)
  {
  }

  /** A window of driving runs the vehicle out exactly when it covers the sum of what its sources need, and at
      the moment that sum ends, however the window is read. */
  lemma {:induction false} DrivingRunsOutAtTheSum(m: Model, target: int)
    requires StateUsable(m) && !m.depleted && m.processedAt < target
    ensures var moved := Journey(m, [Span(Driving, m.processedAt, target)], target);
            && moved.Ok?
            && (moved.value.0.depletedBy.Some? <==> Sum(Needs(m.sources)) <= target - m.processedAt)
            && (moved.value.0.depletedBy.Some? ==>
                  moved.value.0.depletedBy.value == m.processedAt + Sum(Needs(m.sources)))
            && moved.value.1.depleted == moved.value.0.depletedBy.Some?
            && moved.value.1.processedAt == Min(target, m.processedAt + Sum(Needs(m.sources)))
  {
    BurnOfOneSpan(m.sources, Span(Driving, m.processedAt, target));
    DrivingExhaustsAtTheSum(m.sources, target - m.processedAt);
  }
}
