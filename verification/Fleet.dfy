/** One vehicle and the meeting of its model with time
    (backend/internal/rentals/model.go, backend/internal/fleet). */
module Fleet {
  import opened Wrappers
  import opened Energy
  import opened Shares
  import opened Burning
  import opened Windows
  import opened Journeys
  import opened Storing
  import opened Splitting
  import Rentals

  /** `begins` is what the catalog and the last confirmed position of the vehicle say its journey would begin
      from; it is absent while the vehicle is not one the model moves. `model` is the stored state. */
  datatype Vehicle = Vehicle(version: int, serviceRequired: bool, begins: Option<Model>, model: Option<Model>)

  /** What bringing one vehicle to a moment made of it: the window that was charged, from the moment the state
      accounted for to the moment it now does, and the run-out inside it. */
  datatype Play = Play(vehicle: Vehicle, first: bool, from: int, until: int, ranOut: Option<int>, exhausted: seq<Kind>)

  /** The state a journey begins from: the reading itself, with the moment of the reading as the first moment
      it accounts for. */
  function Begun(begins: Model, moment: int): Result<Model, Rentals.Failure> {
    if !StateUsable(begins) then Err(Rentals.Unplayable(StateUnusable))
    else Ok(begins.(joinPath := 0, isOffRoute := false, depleted := false, processedAt := moment))
  }

  function Restored(vehicle: Vehicle, moment: int): Result<Model, Rentals.Failure>
    requires vehicle.begins.Some?
  {
    match vehicle.model
    case Some(m) => Ok(m)
    case None => Begun(vehicle.begins.value, moment)
  }

  /** The sources that were empty when a ride ran out, read from what the model held at that moment. */
  function ExhaustedBy(holding: seq<int>, sources: seq<Source>): seq<Kind> {
    if holding == [] || sources == [] then []
    else (if holding[0] == 0 then [sources[0].kind] else []) + ExhaustedBy(holding[1..], sources[1..])
  }

  function KindsOf(sources: seq<Source>): seq<Kind> {
    seq(|sources|, i requires 0 <= i < |sources| => sources[i].kind)
  }

  /** Restores the state, plays the window since then in the mode the vehicle is in and saves what it reached. */
  ghost function PlayVehicle(vehicle: Vehicle, mode: Mode, moment: int): Result<Play, Rentals.Failure>
    requires vehicle.begins.Some?
  {
    var state :- Restored(vehicle, moment);
    var first := vehicle.model.None?;
    if state.processedAt > moment then Err(Rentals.Unplayable(TimeReversed))
    else if state.processedAt == moment then
      Ok(Play(Saved(vehicle, mode, state, state, moment), first, moment, moment, None, []))
    else
      match Journey(state, [Span(mode, state.processedAt, moment)], moment)
      case Err(error) => Err(Rentals.Unplayable(error))
      case Ok((motion, advanced)) =>
        Ok(Play(Saved(vehicle, mode, state, advanced, moment), first, state.processedAt, advanced.processedAt,
                motion.depletedBy, ExhaustedBy(motion.holding, advanced.sources)))
  }

  /** The state is saved whenever a window was played, whatever the vehicle did in it. */
  function Saved(vehicle: Vehicle, mode: Mode, state: Model, advanced: Model, moment: int): Vehicle {
    if Spends(mode) || vehicle.model.None? || state.processedAt < moment then
      vehicle.(model := Some(Stored(advanced)))
    else vehicle
  }

  /** The first whole microsecond at which the reserve is gone. */
  function WholeMicrosecondFirstAfter(moment: int): (whole: int)
    ensures moment <= whole < moment + 1_000 && whole % 1_000 == 0
  {
    var before := WholeMicrosecondBefore(moment);
    if before == moment then moment else before + MICROSECOND
  }

  predicate WholeMoment(moment: int) {
    moment % MICROSECOND == 0
  }

  ghost predicate ModelOk(m: Model, clock: int) {
    StateUsable(m) && InNameOrder(m.sources) && WholeMoment(m.processedAt) && m.processedAt <= clock
  }

  ghost predicate VehicleOk(vehicle: Vehicle, clock: int) {
    && vehicle.version >= 1
    && (vehicle.model.Some? ==>
          && vehicle.begins.Some?
          && ModelOk(vehicle.model.value, clock)
          && (vehicle.model.value.depleted ==> vehicle.serviceRequired))
  }

  // ---------- what playing one window does ----------

  lemma {:induction false} StoredAsIs(m: Model)
    requires InNameOrder(m.sources) && WholeMoment(m.processedAt)
    ensures Stored(m) == m
  {
    OrderedIsStoredAsIs(m.sources);
  }

  lemma {:induction false} EmptyHoldingNamesAll(sources: seq<Source>)
    requires ValidSources(sources) && AllExhausted(sources)
    ensures ExhaustedBy(Holding(sources), sources) == KindsOf(sources)
  {
    if sources != [] {
      EmptyHoldingNamesAll(sources[1..]);
      assert Holding(sources)[1..] == Holding(sources[1..]);
      RemainingIsPositiveUntilExhausted(sources[0]);
      assert KindsOf(sources) == [sources[0].kind] + KindsOf(sources[1..]);
    }
  }

  lemma {:induction false} ConsumedKeepsKinds(ss: seq<Source>, span: Span)
    requires ValidSources(ss)
    ensures KindsOf(BurnSpan(ss, span).sources) == KindsOf(ss)
    ensures InNameOrder(ss) ==> InNameOrder(BurnSpan(ss, span).sources)
  {
    var after := BurnSpan(ss, span).sources;
    if Spends(span.mode) {
      NeedsOfBurnt(ss, SharesOf(Needs(ss), Slack(span.mode), WindowOf(span)));
    }
    forall i | 0 <= i < |ss|
      ensures after[i].kind == ss[i].kind
    {
    }
  }

  /** What one window does to a state that can be played. */
  lemma {:induction false} OneWindow(m: Model, mode: Mode, moment: int)
    requires ModelOk(m, moment) && m.processedAt < moment
    ensures var r := Journey(m, [Span(mode, m.processedAt, moment)], moment);
            && r.Ok?
            && var (motion, advanced) := r.value;
               && StateUsable(advanced) && InNameOrder(advanced.sources)
               && m.processedAt <= advanced.processedAt <= moment
               && (motion.depletedBy.None? ==> advanced.processedAt == moment && advanced.depleted == m.depleted)
               && (motion.depletedBy.Some? ==>
                     && Spends(mode) && !m.depleted && advanced.depleted
                     && motion.depletedBy.value == advanced.processedAt
                     && ExhaustedBy(motion.holding, advanced.sources) == KindsOf(m.sources))
               && (!Spends(mode) ==> advanced.sources == m.sources)
  {
    var span := Span(mode, m.processedAt, moment);
    if !m.depleted {
      BurnOfOneSpan(m.sources, span);
      ConsumedKeepsKinds(m.sources, span);
      RunsOutInside(m.sources, [span], m.processedAt, moment);
      var b := BurnSpan(m.sources, span);
      if b.ranOut.Some? {
        EmptyHoldingNamesAll(b.sources);
      }
    }
  }

  /** Playing a vehicle fails only when it has no state yet and its reading cannot begin one: the moment of a
      command is never behind the moment its state accounts for. */
  lemma {:induction false} PlayFailsExactlyWhen(vehicle: Vehicle, mode: Mode, moment: int)
    requires VehicleOk(vehicle, moment) && vehicle.begins.Some?
    ensures PlayVehicle(vehicle, mode, moment).Err? <==> vehicle.model.None? && !StateUsable(vehicle.begins.value)
    ensures PlayVehicle(vehicle, mode, moment).Err? ==>
              PlayVehicle(vehicle, mode, moment) == Err(Rentals.Unplayable(StateUnusable))
  {
    if vehicle.model.Some? && vehicle.model.value.processedAt < moment {
      OneWindow(vehicle.model.value, mode, moment);
    }
  }

  /** The first play begins the journey where the vehicle stands, with everything its reading holds, and plays
      nothing. */
  lemma {:induction false} FirstPlayBegins(vehicle: Vehicle, mode: Mode, moment: int)
    requires VehicleOk(vehicle, moment) && vehicle.begins.Some? && WholeMoment(moment) && vehicle.model.None?
    requires PlayVehicle(vehicle, mode, moment).Ok?
    ensures var play := PlayVehicle(vehicle, mode, moment).value;
            && play == Play(vehicle.(model := play.vehicle.model), true, moment, moment, None, [])
            && play.vehicle.model.Some? && ModelOk(play.vehicle.model.value, moment)
            && var (reading, begun) := (vehicle.begins.value, play.vehicle.model.value);
               && multiset(begun.sources) == multiset(reading.sources)
               && begun == Model(reading.routeKnown, begun.sources, reading.path, 0, false, false, moment)
  {
    StoredStaysUsable(Begun(vehicle.begins.value, moment).value);
    ByNameKeepsSources(vehicle.begins.value.sources);
  }

  /** A window without a run-out accounts for all of it. */
  ghost predicate PlayedThrough(vehicle: Vehicle, play: Play, moment: int)
    requires vehicle.model.Some?
  {
    && play.ranOut.None? && play.until == moment && play.vehicle.model.Some?
    && play.vehicle.model.value.processedAt == moment
    && play.vehicle.model.value.depleted == vehicle.model.value.depleted
  }

  /** A run-out ends the window where every source the vehicle carries is empty. */
  ghost predicate PlayedOut(vehicle: Vehicle, play: Play, mode: Mode)
    requires vehicle.model.Some?
  {
    && play.ranOut == Some(play.until) && play.vehicle.model.Some?
    && Spends(mode) && !vehicle.model.value.depleted
    && play.vehicle.model.value.depleted
    && play.vehicle.model.value.processedAt == WholeMicrosecondBefore(play.until)
    && play.exhausted == KindsOf(vehicle.model.value.sources) != []
  }

  lemma {:induction false} LaterPlayMovesOn(vehicle: Vehicle, mode: Mode, moment: int)
    requires VehicleOk(vehicle, moment) && vehicle.begins.Some? && WholeMoment(moment) && vehicle.model.Some?
    ensures PlayVehicle(vehicle, mode, moment).Ok?
    ensures var play := PlayVehicle(vehicle, mode, moment).value;
            && play.vehicle == vehicle.(model := play.vehicle.model) && !play.first
            && play.vehicle.model.Some? && ModelOk(play.vehicle.model.value, moment)
            && vehicle.model.value.processedAt == play.from <= play.until <= moment
            && (PlayedThrough(vehicle, play, moment) || PlayedOut(vehicle, play, mode))
            && (!Spends(mode) ==> play.vehicle.model.value.sources == vehicle.model.value.sources)
  {
    var m := vehicle.model.value;
    StoredAsIs(m);
    if m.processedAt < moment {
      OneWindow(m, mode, moment);
      ReachedIsStored(Journey(m, [Span(mode, m.processedAt, moment)], moment).value.1, moment);
    }
  }

  /** What one window reached is stored as it is, up to the microsecond it accounts for. */
  lemma {:induction false} ReachedIsStored(advanced: Model, moment: int)
    requires StateUsable(advanced) && InNameOrder(advanced.sources) && advanced.processedAt <= moment
    ensures ModelOk(Stored(advanced), moment)
    ensures Stored(advanced) == advanced.(processedAt := WholeMicrosecondBefore(advanced.processedAt))
  {
    StoredStaysUsable(advanced);
    OrderedIsStoredAsIs(advanced.sources);
  }
}
