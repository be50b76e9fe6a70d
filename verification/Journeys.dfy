/** The modelled state of one vehicle and the journeys it is played through
    (backend/internal/simulation/model.go). */
module Journeys {
  import opened Wrappers
  import opened Energy
  import opened Burning
  import opened Windows
  import Distance

  datatype JourneyError = TimeReversed | StateUnusable

  /** One stretch of a journey in one mode. */
  datatype Span = Span(mode: Mode, from: int, to: int)

  /** What a state holds, as a value: the specification of the class `State` and the form it is stored in.
      `routeKnown` is whether this build declares the route the vehicle was placed on. */
  datatype Model = Model(
    routeKnown: bool,
    sources: seq<Source>,
    path: int,
    joinPath: int,
    isOffRoute: bool,
    depleted: bool,
    processedAt: int)

  /** What one journey says about a vehicle: what is left of each source, the sources it used up, and the
      moment it ran out, if it did. */
  datatype Motion = Motion(holding: seq<int>, exhausted: seq<Kind>, depletedBy: Option<int>)

  function Holding(ss: seq<Source>): (amounts: seq<int>)
    ensures |amounts| == |ss|
    ensures forall i :: 0 <= i < |ss| ==> amounts[i] == ss[i].Remaining()
  {
    seq(|ss|, i requires 0 <= i < |ss| => ss[i].Remaining())
  }

  /** Spans that begin where the state stands, meet end to end, and end at the target. */
  ghost predicate SpansMeet(processedAt: int, spans: seq<Span>, target: int) {
    && spans != []
    && spans[0].from == processedAt
    && spans[|spans| - 1].to == target
    && (forall i :: 0 <= i < |spans| ==> spans[i].from <= spans[i].to)
    && (forall i :: 0 < i < |spans| ==> spans[i - 1].to == spans[i].from)
  }

  predicate StateUsable(m: Model) {
    m.sources != [] && m.routeKnown && ValidSources(m.sources)
  }

  ghost function WindowOf(span: Span): nat {
    Max(0, span.to - span.from)
  }

  ghost function Consumed(ss: seq<Source>, span: Span): (b: Burned)
    requires ValidSources(ss)
    ensures ValidSources(b.sources) && |b.sources| == |ss|
  {
    ConsumedFor(ss, span.mode, span.from, WindowOf(span))
  }

  /** One span: only time charged while driving moves the vehicle. */
  ghost function BurnSpan(ss: seq<Source>, span: Span): (b: Burned)
    requires ValidSources(ss)
    ensures ValidSources(b.sources) && |b.sources| == |ss|
  {
    if !Spends(span.mode) then Burned(ss, [], 0, None)
    else Paced(span.mode, Consumed(ss, span))
  }

  ghost function Paced(mode: Mode, b: Burned): Burned {
    if mode == Driving then b else b.(inMotion := 0)
  }

  /** Spans are burned in order up to the one the vehicle runs out in. */
  ghost function Burn(ss: seq<Source>, spans: seq<Span>): (b: Burned)
    requires ValidSources(ss)
    ensures ValidSources(b.sources) && |b.sources| == |ss|
    decreases |spans|
  {
    if spans == [] then Burned(ss, [], 0, None)
    else
      var first := BurnSpan(ss, spans[0]);
      Then(first, Burn(first.sources, spans[1..]))
  }

  /** A whole journey: refused, standing still when the vehicle has run out, or burned. */
  ghost function Journey(m: Model, spans: seq<Span>, target: int): (r: Result<(Motion, Model), JourneyError>) {
    if target < m.processedAt then Err(TimeReversed)
    else if m.depleted then Ok((Motion(Holding(m.sources), [], None), m.(processedAt := target)))
    else if !SpansMeet(m.processedAt, spans, target) then Err(TimeReversed)
    else if !StateUsable(m) then Err(StateUnusable)
    else
      var b := Burn(m.sources, spans);
      var path := m.path + Distance.Travelled(b.inMotion);
      var moved := m.(sources := b.sources, path := path, isOffRoute := m.isOffRoute && path < m.joinPath,
                      depleted := b.ranOut.Some?, processedAt := if b.ranOut.Some? then b.ranOut.value else target);
      Ok((Motion(Holding(b.sources), b.exhausted, b.ranOut), moved))
  }

  /** The state itself, updated in place. */
  class State {
    const routeKnown: bool
    const joinPath: int
    var sources: seq<Source>
    var path: int
    var isOffRoute: bool
    var depleted: bool
    var processedAt: int

    ghost function Value(): (m: Model)
      reads this
    {
      Model(routeKnown, sources, path, joinPath, isOffRoute, depleted, processedAt)
    }

    /** A state of its own holding the given value. */
    constructor (m: Model)
      ensures Value() == m
    {
      routeKnown := m.routeKnown;
      joinPath := m.joinPath;
      path := m.path;
      isOffRoute := m.isOffRoute;
      depleted := m.depleted;
      processedAt := m.processedAt;
      sources := m.sources;
    }

    method Read() returns (m: Model)
      ensures m == Value()
    {
      return Model(routeKnown, sources, path, joinPath, isOffRoute, depleted, processedAt);
    }

    /** The first source, in the order they are carried, that still holds something. */
    method Current() returns (position: nat, found: bool)
      ensures found <==> position < |sources|
      ensures found <==> !NoneInUse(sources)
      ensures position == InUseAt(sources)
    {
      position := 0;
      found := false;
      while position < |sources|
        invariant position <= |sources|
        invariant forall i :: 0 <= i < position ==> sources[i].Remaining() <= 0
      {
        if sources[position].Remaining() > 0 {
          InUseAtIs(sources, position);
          return position, true;
        }
        position := position + 1;
      }
      InUseAtIs(sources, position);
    }

    /** Charges one source for what it can cover of the window, and answers the moment that ends at. */
    method Stretch(position: nat, mode: Mode, from: int, to: int) returns (until: int)
      requires position < |sources| && sources[position].Valid() && sources[position].Remaining() > 0
      requires from < to
      modifies this`sources
      ensures until == from + ShareIn(old(sources[position]), mode, to - from)
      ensures sources == old(sources)[position := Stretched(old(sources[position]), mode, to - from)]
    {
      var source := sources[position];
      var rate := source.DrivingRate();
      if mode == Paused {
        rate := source.PausedRate();
      }
      StretchOfSource(source, mode, from, to - from);
      until := source.SpentAt(rate, from, to - from);
      source := source.Consumed(rate, until - from);
      sources := sources[position := source];
    }

    /** One pass of the loop below: the source in use is charged until it is spent or the window ends. A source
        ending exactly with the window is used up; the vehicle ran out only if it was the last. */
    method Pass(mode: Mode, from: int, to: int)
      returns (used: seq<Kind>, until: int, over: bool, ranOut: Option<int>)
      requires ValidSources(sources) && Spends(mode) && from < to
      modifies this`sources
      ensures ValidSources(sources) && from <= until
      ensures over ==> Stretches(old(sources), mode, from, to - from) == Burned(sources, used, until - from, ranOut)
      ensures !over ==>
                && until < to
                && InUseAt(old(sources)) < InUseAt(sources) <= |sources| == |old(sources)|
                && Stretches(old(sources), mode, from, to - from) ==
                   Continued(used, until - from, Stretches(sources, mode, until, to - until))
    {
      ghost var before, w := sources, to - from;
      var position, found := Current();
      if !found {
        StretchesStop(sources, mode, from, w);
        return [], from, true, Some(from);
      }
      var source := sources[position];
      until := Stretch(position, mode, from, to);
      if until < to {
        StretchesGoOn(before, mode, from, w, position, until - from, Stretched(source, mode, w));
        return [source.kind], until, false, None;
      }
      StretchesEnd(before, mode, from, w, position, Stretched(source, mode, w));
      if sources[position].Remaining() > 0 {
        return [], to, true, None;
      }
      var _, continues := Current();
      return [source.kind], to, true, if continues then None else Some(to);
    }

    /** Takes one window out of the sources, a stretch at a time. */
    method SpendStretches(mode: Mode, since: int, to: int)
      returns (exhausted: seq<Kind>, charged: nat, ranOut: Option<int>)
      requires ValidSources(sources) && Spends(mode)
      modifies this`sources
      ensures Burned(sources, exhausted, charged, ranOut) == Stretches(old(sources), mode, since, Max(0, to - since))
    {
      exhausted, charged, ranOut := [], 0, None;
      var from := since;
      ghost var whole := Stretches(sources, mode, since, Max(0, to - since));
      assert whole.exhausted == [] + whole.exhausted;
      while from < to
        invariant ValidSources(sources)
        invariant from < to ==> whole == Continued(exhausted, charged, Stretches(sources, mode, from, to - from))
        invariant from >= to ==> whole == Burned(sources, exhausted, charged, None)
        decreases |sources| - InUseAt(sources)
      {
        var used, until, over, stopped := Pass(mode, from, to);
        if over {
          return exhausted + used, charged + (until - from), stopped;
        }
        ContinuedTwice(exhausted, charged, used, until - from, Stretches(sources, mode, until, to - until));
        exhausted, charged, from := exhausted + used, charged + (until - from), until;
      }
    }

    /** The loop refines the closed form. */
    method Consume(span: Span) returns (exhausted: seq<Kind>, charged: nat, ranOut: Option<int>)
      requires ValidSources(sources) && Spends(span.mode)
      modifies this`sources
      ensures Burned(sources, exhausted, charged, ranOut) == Consumed(old(sources), span)
    {
      StretchesAreTheClosedForm(sources, span.mode, span.from, WindowOf(span));
      exhausted, charged, ranOut := SpendStretches(span.mode, span.from, span.to);
    }

    /** Burns the spans in order, up to the one the vehicle runs out in. */
    method BurnSpans(spans: seq<Span>) returns (exhausted: seq<Kind>, ranOut: Option<int>, inMotion: nat)
      requires ValidSources(sources)
      modifies this`sources
      ensures Burned(sources, exhausted, inMotion, ranOut) == Burn(old(sources), spans)
    {
      exhausted, inMotion, ranOut := [], 0, None;
      ghost var whole := Burn(sources, spans);
      var i := 0;
      while i < |spans|
        invariant 0 <= i <= |spans| && ValidSources(sources)
        invariant whole == Continued(exhausted, inMotion, Burn(sources, spans[i..]))
      {
        var span := spans[i];
        BurnGoesOn(whole, exhausted, inMotion, sources, spans, i);
        i := i + 1;
        if !Spends(span.mode) {
          continue;
        }
        var used, charged, stopped := Consume(span);
        exhausted := exhausted + used;
        if span.mode == Driving {
          inMotion := inMotion + charged;
        }
        if stopped.Some? {
          return exhausted, stopped, inMotion;
        }
      }
    }

    /** Whether the spans begin where the state stands, meet end to end and end at the target. */
    method CheckSpans(spans: seq<Span>, target: int) returns (ok: bool)
      ensures ok <==> SpansMeet(processedAt, spans, target)
    {
      if |spans| == 0 {
        return false;
      }
      var previous := processedAt;
      var i := 0;
      while i < |spans|
        invariant 0 <= i <= |spans|
        invariant previous == if i == 0 then processedAt else spans[i - 1].to
        invariant forall j :: 0 <= j < i ==> spans[j].from <= spans[j].to
        invariant i > 0 ==> spans[0].from == processedAt
        invariant forall j :: 0 < j < i ==> spans[j - 1].to == spans[j].from
        invariant i > 0 ==> previous <= target
      {
        var span := spans[i];
        if span.from != previous || span.to < span.from || span.to > target {
          if span.from == previous && span.from <= span.to {
            LaterSpansEndLater(processedAt, spans, target, i);
          }
          return false;
        }
        previous := span.to;
        i := i + 1;
      }
      return previous == target;
    }

    /** Plays the spans on a state of its own; the one it was asked on is left as it was. */
    method Play(spans: seq<Span>, target: int) returns (r: Result<(Motion, State), JourneyError>)
      requires ValidSources(sources)
      ensures r.Err? ==> Journey(Value(), spans, target) == Err(r.error)
      ensures r.Ok? ==> fresh(r.value.1)
      ensures r.Ok? ==> Journey(Value(), spans, target) == Ok((r.value.0, r.value.1.Value()))
    {
      if target < processedAt {
        return Err(TimeReversed);
      }
      var moved := new State(Model(routeKnown, sources, path, joinPath, isOffRoute, depleted, processedAt));
      if depleted {
        moved.processedAt := target;
        return Ok((Motion(Holding(moved.sources), [], None), moved));
      }
      var meet := CheckSpans(spans, target);
      if !meet {
        return Err(TimeReversed);
      }
      if |sources| == 0 || !routeKnown {
        return Err(StateUnusable);
      }
      var exhausted, ranOut, charged := moved.BurnSpans(spans);
      moved.path := path + Distance.Travelled(charged);
      moved.isOffRoute := isOffRoute && moved.path < joinPath;
      if ranOut.None? {
        moved.processedAt := target;
      } else {
        moved.depleted := true;
        moved.processedAt := ranOut.value;
      }
      return Ok((Motion(Holding(moved.sources), exhausted, ranOut), moved));
    }
  }

  /** Spans that meet end to end never end earlier than the ones before them. */
  lemma {:induction false} LaterSpansEndLater(processedAt: int, spans: seq<Span>, target: int, i: nat)
    requires i < |spans| && spans[i].to > target
    ensures !SpansMeet(processedAt, spans, target)
  {
    if SpansMeet(processedAt, spans, target) {
      var j := i;
      while j + 1 < |spans|
        invariant i <= j < |spans| && spans[j].to > target
      {
        j := j + 1;
      }
    }
  }

  /** What was burned so far goes on with the next span and, unless the vehicle runs out in it, the rest. */
  lemma {:induction false} BurnGoesOn(whole: Burned, exhausted: seq<Kind>, inMotion: nat, ss: seq<Source>,
                                      spans: seq<Span>,
                                      i: nat)
    requires ValidSources(ss) && i < |spans| && whole == Continued(exhausted, inMotion, Burn(ss, spans[i..]))
    ensures var first := BurnSpan(ss, spans[i]);
            && (!Spends(spans[i].mode) ==> whole == Continued(exhausted, inMotion, Burn(ss, spans[i + 1..])))
            && (first.ranOut.None? ==> whole == Continued(exhausted + first.exhausted, inMotion + first.inMotion,
                                                          Burn(first.sources, spans[i + 1..])))
            && (first.ranOut.Some? ==> whole == Burned(first.sources, exhausted + first.exhausted,
                                                       inMotion + first.inMotion, first.ranOut))
  {
    var first, later := BurnSpan(ss, spans[i]), spans[i + 1..];
    assert spans[i..][0] == spans[i] && spans[i..][1..] == later;
    ContinuedTwice(exhausted, inMotion, first.exhausted, first.inMotion, Burn(first.sources, later));
    assert !Spends(spans[i].mode) ==> exhausted + first.exhausted == exhausted;
  }
}
