/** What each transition of one rental keeps, and exactly when it can be written. */
module RowSteps {
  import opened Wrappers
  import opened Energy
  import opened Invoices
  import opened Rentals

  /** Both sums of a ride by a moment. */
  ghost predicate SameTimes(a: seq<Segment>, b: seq<Segment>, at: int) {
    TimeIn(a, Driving, at) == TimeIn(b, Driving, at) && TimeIn(a, Mode.Paused, at) == TimeIn(b, Mode.Paused, at)
  }

  lemma {:induction false} RowStaysOkLater(id: nat, row: Row, clock: int, later: int)
    requires RowOk(id, row, clock) && clock <= later
    ensures RowOk(id, row, later)
  {
  }

  /** A reservation given back before its deadline, or released at it. */
  lemma {:induction false} ReleasedRowIsOk(id: nat, row: Row, ending: Stage, at: int, clock: int)
    requires RowOk(id, row, clock) && row.rental.stage == Reserved
    requires (ending == Cancelled && at == clock && !Overdue(row.rental, clock))
             || (ending == Expired && at == row.rental.expiresAt && Overdue(row.rental, clock))
    ensures EndReservationAs(row, ending, at).1
    ensures RowOk(id, EndReservationAs(row, ending, at).0, clock)
  {
  }

  /** A ride moves along exactly when it stands in the stage the command applies to, the mode it leaves has
      lasted some time and what it has taken so far can be priced. */
  lemma {:induction false} MoveRowExactlyWhen(id: nat, row: Row, action: Action, moment: int)
    requires RowOk(id, row, moment)
    ensures MoveRow(row, action, moment).Ok? <==>
              && row.rental.stage == StageBefore(action)
              && (action != Start ==> row.rental.modeStartedAt.value < moment)
              && Price(row, moment).Ok?
  {
    if row.rental.stage == StageBefore(action) {
      if action != Start {
        MovingClosesTheMode(row, if action == Pause then Driving else Mode.Paused, ModeAfter(action), moment);
      } else {
        StartingOpensTheFirst(row, moment);
      }
    }
  }

  /** Closing the mode of a ride in progress and opening the next leaves what the ride took by that moment, and
      fails only when the mode would have lasted no time. */
  lemma {:induction false} MovingClosesTheMode(row: Row, mode: Mode, next: Mode, moment: int)
    requires InProgress(row, mode, moment) && (mode == Driving || mode == Mode.Paused)
    ensures BeginSegment(row, next, moment) ==
            if row.rental.modeStartedAt.value < moment
            then Ok(row.(segments := Closed(row.segments, moment) + [Segment(next, moment, None)]))
            else Err(CheckFailed)
    ensures row.rental.modeStartedAt.value < moment ==>
              var begun := Closed(row.segments, moment) + [Segment(next, moment, None)];
              && TileOpen(begun, row.rental.startedAt.value, next, moment)
              && SameTimes(begun, row.segments, moment)
  {
    var from, since := row.rental.startedAt.value, row.rental.modeStartedAt.value;
    ClosingCoversTheRide(row.segments, from, mode, since, moment);
    if since < moment {
      var closed := Closed(row.segments, moment);
      TileIsClosed(closed, from, moment);
      OpeningAfterACover(closed, from, moment, next);
      NextTakesNoTimeYet(closed, next, moment);
      ClosingKeepsTimes(row.segments, from, mode, since, moment);
    }
  }

  lemma {:induction false} NextTakesNoTimeYet(closed: seq<Segment>, next: Mode, moment: int)
    ensures SameTimes(closed + [Segment(next, moment, None)], closed, moment)
  {
    assert ButLast(closed + [Segment(next, moment, None)]) == closed;
  }

  /** A ride that has not started has nothing to close. */
  lemma {:induction false} StartingOpensTheFirst(row: Row, moment: int)
    requires row.segments == []
    ensures var begun := row.(segments := [Segment(Driving, moment, None)]);
            && BeginSegment(row, Driving, moment) == Ok(begun)
            && TileOpen(begun.segments, moment, Driving, moment)
            && SameTimes(begun.segments, row.segments, moment)
  {
    OpeningAfterACover([], moment, moment, Driving);
    assert ButLast([Segment(Driving, moment, None)]) == [];
  }

  /** A ride moved along: the same rental in its new stage, its open segment closed and the next one opened. */
  predicate MovesAs(row: Row, moved: Row, action: Action, moment: int) {
    && moved == row.(rental := moved.rental, segments := moved.segments)
    && moved.rental == row.rental.(
         stage := StageAfter(action),
         version := row.rental.version + 1,
         startedAt := if action == Start then Some(moment) else row.rental.startedAt,
         modeStartedAt := Some(moment))
    && moved.segments == Closed(row.segments, moment) + [Segment(ModeAfter(action), moment, None)]
  }

  lemma {:induction false} MovedRowIsOk(id: nat, row: Row, action: Action, moment: int)
    requires RowOk(id, row, moment) && !Overdue(row.rental, moment) && MoveRow(row, action, moment).Ok?
    ensures var moved := MoveRow(row, action, moment).value;
            && RowOk(id, moved, moment)
            && MovesAs(row, moved, action, moment)
            && SameTimes(moved.segments, row.segments, moment)
  {
    var moved := MoveRow(row, action, moment).value;
    if action == Start {
      StartedRow(id, row, moved, moment);
    } else {
      ModeMovedRow(id, row, moved, action, moment);
    }
    MovedAsIsOk(id, row, moved, action, moment);
  }

  lemma {:induction false} StartedRow(id: nat, row: Row, moved: Row, moment: int)
    requires RowOk(id, row, moment) && MoveRow(row, Start, moment) == Ok(moved)
    ensures row.rental.stage == Reserved && MovesAs(row, moved, Start, moment)
    ensures TileOpen(moved.segments, moment, Driving, moment) && SameTimes(moved.segments, row.segments, moment)
  {
    var begun := MoveRide(row, Start, moment).value;
    assert begun.segments == row.segments == [];
    StartingOpensTheFirst(begun, moment);
    assert moved == begun.(segments := [Segment(Driving, moment, None)]);
  }

  lemma {:induction false} ModeMovedRow(id: nat, row: Row, moved: Row, action: Action, moment: int)
    requires RowOk(id, row, moment) && MoveRow(row, action, moment) == Ok(moved) && action != Start
    ensures row.rental.stage == StageBefore(action) && MovesAs(row, moved, action, moment)
    ensures TileOpen(moved.segments, row.rental.startedAt.value, ModeAfter(action), moment)
    ensures SameTimes(moved.segments, row.segments, moment)
  {
    MovingClosesTheMode(row, if action == Pause then Driving else Mode.Paused, ModeAfter(action), moment);
  }

  lemma {:induction false} MovedAsIsOk(id: nat, row: Row, moved: Row, action: Action, moment: int)
    requires RowOk(id, row, moment) && !Overdue(row.rental, moment) && row.rental.stage == StageBefore(action)
    requires MovesAs(row, moved, action, moment)
    requires TileOpen(moved.segments, moved.rental.startedAt.value, ModeAfter(action), moment)
    ensures RowOk(id, moved, moment)
  {
  }

  // ---------- endings ----------

  /** A ride in progress with its open segment closed at the moment it ended. */
  ghost predicate ClosedAt(row: Row, at: int, segments: seq<Segment>) {
    && row.rental.startedAt.Some?
    && segments == Closed(row.segments, at) && Tile(segments, row.rental.startedAt.value, at)
  }

  lemma {:induction false} EndingClosesTheMode(id: nat, row: Row, at: int, clock: int)
    requires RowOk(id, row, clock) && Riding(row.rental)
    ensures ClosesLater(row.segments, at) <==> row.rental.modeStartedAt.value < at
    ensures row.rental.modeStartedAt.value < at ==> ClosedAt(row, at, Closed(row.segments, at))
    ensures row.rental.modeStartedAt.value < at ==> SameTimes(Closed(row.segments, at), row.segments, at)
  {
    var mode := if row.rental.stage == Active then Driving else Mode.Paused;
    ClosingCoversTheRide(row.segments, row.rental.startedAt.value, mode, row.rental.modeStartedAt.value, at);
    if row.rental.modeStartedAt.value < at {
      ClosingKeepsTimes(row.segments, row.rental.startedAt.value, mode, row.rental.modeStartedAt.value, at);
    }
  }

  lemma {:induction false} ClosingKeepsTimes(segments: seq<Segment>, from: int, mode: Mode, modeFrom: int, at: int)
    requires TileOpen(segments, from, mode, modeFrom) && (mode == Driving || mode == Mode.Paused) && modeFrom < at
    ensures SameTimes(Closed(segments, at), segments, at)
  {
    ClosingCoversTheRide(segments, from, mode, modeFrom, at);
    assert ButLast(Closed(segments, at)) == ButLast(segments);
  }

  predicate EndingOk(ending: Ending) {
    && (ending.reason == EnergyDepleted <==> ending.exhausted.Some?)
    && ending.exhausted != Some([])
  }

  /** A ride ended: the same rental with its ending, its segments closed and its invoice. */
  predicate EndsAs(row: Row, ended: Row, ending: Ending) {
    && ended.rental == row.rental.(
         stage := Completed,
         version := row.rental.version + 1,
         endedAt := Some(ending.endedAt),
         modeStartedAt := None,
         reason := Some(ending.reason),
         exhausted := ending.exhausted)
    && ended.segments == Closed(row.segments, ending.endedAt)
    && row.invoice.None? && ended.invoice.Some?
  }

  /** A ride can be ended exactly when its mode lasted some time and what it took can be priced. */
  lemma {:induction false} EndRowExactlyWhen(id: nat, row: Row, moment: int, ending: Ending)
    requires RowOk(id, row, moment) && Riding(row.rental) && EndingOk(ending) && ending.endedAt <= moment
    ensures EndRow(id, row, moment, ending).Ok? <==>
              row.rental.modeStartedAt.value < ending.endedAt && Price(row, ending.endedAt).Ok?
  {
    EndingClosesTheMode(id, row, ending.endedAt, moment);
    if row.rental.modeStartedAt.value < ending.endedAt && Price(row, ending.endedAt).Ok? {
      PricedChargeIsAcceptable(id, row, ending, moment);
    }
  }

  lemma {:induction false} PricedChargeIsAcceptable(id: nat, row: Row, ending: Ending, moment: int)
    requires Price(row, ending.endedAt).Ok?
    ensures Acceptable(DraftOf(id, row.rental, Price(row, ending.endedAt).value, ending, moment))
  {
    var driving := TimeIn(row.segments, Driving, ending.endedAt);
    var paused := TimeIn(row.segments, Mode.Paused, ending.endedAt);
    ChargesAreAcceptable(row.rental.rates, driving, paused, id, row.rental.user, moment, ending.reason,
                         ending.exhausted);
  }

  lemma {:induction false} EndedRowIsOk(id: nat, row: Row, moment: int, ending: Ending)
    requires RowOk(id, row, moment) && Riding(row.rental) && EndingOk(ending) && ending.endedAt <= moment
    requires EndRow(id, row, moment, ending).Ok?
    ensures var ended := EndRow(id, row, moment, ending).value;
            && RowOk(id, ended, moment)
            && EndsAs(row, ended, ending)
            && ended.drove == row.drove && ended.missed == row.missed
            && TimeIn(ended.segments, Driving, ending.endedAt) == TimeIn(row.segments, Driving, ending.endedAt)
            && ended.invoice.value.issuedAt == moment
  {
    EndRowExactlyWhen(id, row, moment, ending);
    EndingClosesTheMode(id, row, ending.endedAt, moment);
    PricedChargeIsAcceptable(id, row, ending, moment);
    IssuedPaymentOk(DraftOf(id, row.rental, Price(row, ending.endedAt).value, ending, moment));
  }

  /** Settling a payment changes nothing else a row states. */
  lemma {:induction false} SettledRowIsOk(id: nat, row: Row, from: PaymentStatus, outcome: Outcome, clock: int)
    requires RowOk(id, row, clock) && row.invoice.Some?
    requires from != Settled && (from == Failed ==> outcome.status == Settled) && outcome.moment == clock
    requires Settle(row.invoice.value, from, outcome).Ok?
    ensures RowOk(id, row.(invoice := Some(Settle(row.invoice.value, from, outcome).value)), clock)
  {
    SettleKeepsPaymentOk(row.invoice.value, from, outcome);
  }
}
