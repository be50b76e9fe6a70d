/** How far along its route a journey moves a vehicle (backend/internal/simulation/model.go, route.go). */
module Travels {
  import opened Wrappers
  import opened Energy
  import opened Burning
  import opened Windows
  import opened Journeys
  import opened Splitting
  import Distance

  /** The time a vehicle is driven for in some windows, up to a moment. */
  function DrivenIn(spans: seq<Span>, until: int): (driven: nat) {
    if spans == [] then 0
    else
      (if spans[0].mode == Driving then Max(0, Min(spans[0].to, until) - spans[0].from) else 0)
      + DrivenIn(spans[1..], until)
  }

  lemma {:induction false} NothingIsDrivenYet(spans: seq<Span>, from: int, to: int, until: int)
    requires SpansMeet(from, spans, to) && until <= from
    ensures DrivenIn(spans, until) == 0
    decreases |spans|
  {
    if spans[1..] != [] {
      assert SpansMeet(spans[0].to, spans[1..], to);
      NothingIsDrivenYet(spans[1..], spans[0].to, to, until);
    }
  }

  lemma {:induction false} NothingIsDrivenAtRest(spans: seq<Span>, until: int)
    requires forall i :: 0 <= i < |spans| ==> spans[i].mode != Driving
    ensures DrivenIn(spans, until) == 0
  {
    if spans != [] {
      NothingIsDrivenAtRest(spans[1..], until);
    }
  }

  /** One window is in motion as long as it is driven, up to the run-out in it. */
  lemma {:induction false} SpanInMotion(ss: seq<Source>, span: Span)
    requires ValidSources(ss) && span.from <= span.to
    ensures var b := BurnSpan(ss, span);
            && (b.ranOut.Some? ==> span.from <= b.ranOut.value <= span.to)
            && b.inMotion == if span.mode != Driving then 0
                             else (if b.ranOut.Some? then b.ranOut.value else span.to) - span.from
  {
    if span.mode == Driving {
      DrivingCutsAreSafeOf(ss, WindowOf(span));
      AfterSafeCut(ss, Driving, WindowOf(span));
    }
  }

  /** The time the windows of a journey are in motion is the time they are driven, up to the run-out. */
  lemma {:induction false} BurntAsDriven(ss: seq<Source>, spans: seq<Span>, from: int, to: int)
    requires ValidSources(ss) && SpansMeet(from, spans, to)
    ensures var b := Burn(ss, spans);
            b.inMotion == DrivenIn(spans, if b.ranOut.Some? then b.ranOut.value else to)
    decreases |spans|
  {
    var first, rest := BurnSpan(ss, spans[0]), spans[1..];
    SpanInMotion(ss, spans[0]);
    if rest == [] {
      assert spans == [spans[0]];
    } else {
      assert SpansMeet(spans[0].to, rest, to);
      if first.ranOut.Some? {
        NothingIsDrivenYet(rest, spans[0].to, to, first.ranOut.value);
      } else {
        BurntAsDriven(first.sources, rest, spans[0].to, to);
        RunsOutInside(first.sources, rest, spans[0].to, to);
      }
    }
  }

  /** A journey moves a vehicle by the whole millimetres nearest to thirty kilometres an hour over the time it was
      driven, up to its run-out; standing still moves it nowhere, and it is back on its route once it is past the
      point it joins it at. */
  lemma {:induction false} JourneysMoveAsTheyDrive(m: Model, spans: seq<Span>, target: int)
    requires StateUsable(m) && !m.depleted && SpansMeet(m.processedAt, spans, target)
    ensures var r := Journey(m, spans, target);
            && r.Ok?
            && var moved := r.value.1;
               && -3_000 < 2 * (3_000 * (moved.path - m.path) - 25 * DrivenIn(spans, moved.processedAt)) <= 3_000
               && ((forall i :: 0 <= i < |spans| ==> spans[i].mode != Driving) ==> moved.path == m.path)
               && (moved.isOffRoute <==> m.isOffRoute && moved.path < m.joinPath)
               && moved == m.(sources := moved.sources, path := moved.path, isOffRoute := moved.isOffRoute,
                              depleted := moved.depleted, processedAt := moved.processedAt)
  {
    RunsOutInside(m.sources, spans, m.processedAt, target);
    BurntAsDriven(m.sources, spans, m.processedAt, target);
    var moved := Journey(m, spans, target).value.1;
    Distance.RoundingIsHalfAtMost(DrivenIn(spans, moved.processedAt));
    if forall i :: 0 <= i < |spans| ==> spans[i].mode != Driving {
      NothingIsDrivenAtRest(spans, moved.processedAt);
    }
  }
}
