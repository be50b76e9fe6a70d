/** What holds of the tables in every reachable state, and how one changed row keeps it. */
module Invariants {
  import opened Energy
  import opened Invoices
  import opened Rentals
  import opened RowSteps
  import opened Fleet
  import opened Operations
  import Billing

  // ---------- the service day ----------

  /** The midnights of Bishkek, six hours ahead of the clock, whose zero is a midnight of its own. */
  function Midnight(k: int): int {
    k * 86_400_000_000_000 - 21_600_000_000_000
  }

  /** Whether a day begins after the first moment and no later than the second. */
  ghost predicate MidnightBetween(a: int, b: int) {
    exists k :: a < Midnight(k) <= b
  }

  /** Two moments are of one service day exactly when no midnight of the service timezone separates them. */
  lemma {:induction false} ServiceDaysEndAtMidnight(a: int, b: int)
    ensures ServiceDay(a) == ServiceDay(b) <==> !MidnightBetween(a, b) && !MidnightBetween(b, a)
  {
    DayHoldsItsMoment(a);
    DayHoldsItsMoment(b);
    var day, other := ServiceDay(a), ServiceDay(b);
    if day < other {
      assert a < Midnight(other) <= b;
    } else if other < day {
      assert b < Midnight(day) <= a;
    }
  }

  /** A service day begins at its own midnight and ends at the next. */
  lemma {:induction false} DayHoldsItsMoment(moment: int)
    ensures Midnight(ServiceDay(moment)) <= moment < Midnight(ServiceDay(moment) + 1)
  {
  }

  // ---------- what is always so ----------

  /** The first rental was over when the second was reserved. */
  predicate Before(a: Rental, b: Rental) {
    a.endedAt.Some? && a.endedAt.value <= b.reservedAt
  }

  /** Two rentals of one account or of one vehicle never overlap; one account spends one reservation a day,
      owes one invoice at most, and none while it holds a vehicle. */
  predicate Apart(a: Row, b: Row) {
    && (a.rental.user == b.rental.user || a.rental.vehicle == b.rental.vehicle ==>
          Before(a.rental, b.rental) || Before(b.rental, a.rental))
    && (a.rental.user == b.rental.user ==>
          && ServiceDay(a.rental.reservedAt) != ServiceDay(b.rental.reservedAt)
          && !(Owes(a) && (Owes(b) || Live(b.rental)))
          && !(Owes(b) && Live(a.rental)))
  }

  /** The model of a vehicle in use accounts for the ride up to its moment and never for a time before the
      current mode: every nanosecond of driving it was moved over is charged or, in the history, missed. */
  ghost predicate HeldOk(row: Row, vehicle: Vehicle) {
    Live(row.rental) ==>
      && !vehicle.serviceRequired
      && (Riding(row.rental) && vehicle.model.None? ==> row.drove == 0)
      && (Riding(row.rental) && vehicle.model.Some? ==>
            && !vehicle.model.value.depleted
            && row.rental.modeStartedAt.value <= vehicle.model.value.processedAt
            && row.drove + row.missed == TimeIn(row.segments, Driving, vehicle.model.value.processedAt))
  }

  /** A ride that is over was driven for what was charged and what was missed, up to the part of a microsecond
      a run-out is carried forward by. */
  predicate LedgerOk(row: Row) {
    row.rental.stage == Completed && row.rental.endedAt.Some? && row.rental.reason.Some? ==>
      var driven := TimeIn(row.segments, Driving, row.rental.endedAt.value);
      && row.drove + row.missed <= driven < row.drove + row.missed + 1_000
      && (row.rental.reason.value == UserFinished ==> driven == row.drove + row.missed)
  }

  ghost predicate RowIn(db: Db, id: nat)
    requires id in db.rows
  {
    var row := db.rows[id];
    && RowOk(id, row, db.clock) && LedgerOk(row)
    && row.rental.vehicle in db.vehicles && HeldOk(row, db.vehicles[row.rental.vehicle])
  }

  ghost predicate Inv(db: Db) {
    && WholeMoment(db.clock)
    && (forall id :: id in db.rows ==> RowIn(db, id))
    && (forall a, b :: a in db.rows && b in db.rows && a != b ==> Apart(db.rows[a], db.rows[b]))
    && (forall v :: v in db.vehicles ==> VehicleOk(db.vehicles[v], db.clock))
  }

  // ---------- what never changes ----------

  /** A payment moves from waiting to refused or paid, and from refused to paid, one version for every move. */
  predicate PaymentMoves(a: Payment, b: Payment) {
    && a.passed <= b.passed && b.version - a.version == |b.passed| - |a.passed|
    && (a == b || (a.status != Settled && b.status != Pending && a.status != b.status))
  }

  predicate InvoiceStays(a: Invoice, b: Invoice) {
    b == a.(payment := b.payment) && PaymentMoves(a.payment, b.payment)
  }

  /** How a stored rental may differ from what it was: what it was made under stays, a rental that is over stays
      as it ended but for the payment of its invoice, a segment that was closed is never written again and the
      version never falls. */
  predicate Evolves(a: Row, b: Row) {
    var (r, s) := (a.rental, b.rental);
    && s.user == r.user && s.vehicle == r.vehicle && s.zone == r.zone && s.rates == r.rates
    && s.reservedAt == r.reservedAt && s.expiresAt == r.expiresAt && r.version <= s.version
    && (r.startedAt.Some? ==> s.startedAt == r.startedAt)
    && |a.segments| <= |b.segments|
    && (forall i :: 0 <= i < |a.segments| && a.segments[i].to.Some? ==> b.segments[i] == a.segments[i])
    && (!Live(r) ==> s == r && b.segments == a.segments && b.owed == a.owed)
    && (a.invoice.Some? ==> b.invoice.Some? && InvoiceStays(a.invoice.value, b.invoice.value))
  }

  ghost predicate Evolved(before: Db, after: Db) {
    forall id :: id in before.rows ==> id in after.rows && Evolves(before.rows[id], after.rows[id])
  }

  lemma {:induction false} EvolvedTwice(a: Db, b: Db, c: Db)
    requires Evolved(a, b) && Evolved(b, c)
    ensures Evolved(a, c)
  {
    forall id | id in a.rows
      ensures id in c.rows && Evolves(a.rows[id], c.rows[id])
    {
      assert Evolves(a.rows[id], b.rows[id]) && Evolves(b.rows[id], c.rows[id]);
    }
  }

  // ---------- one row changed ----------

  /** What of a row the others are judged by: it keeps its account, its vehicle and its beginning, stays ended
      as it ended, and owes only what it owed or what its own ending costs. */
  predicate Continues(before: Row, after: Row) {
    && after.rental.user == before.rental.user
    && after.rental.vehicle == before.rental.vehicle
    && after.rental.reservedAt == before.rental.reservedAt
    && (before.rental.endedAt.Some? ==> after.rental.endedAt == before.rental.endedAt)
    && (Owes(after) ==> Owes(before) || Live(before.rental))
  }

  lemma {:induction false} StaysApart(a: Row, b: Row, after: Row)
    requires Apart(a, b) && Continues(a, after)
    ensures Apart(after, b) && Apart(b, after)
  {
  }

  lemma {:induction false} HoldersAreOne(db: Db, a: nat, b: nat)
    requires Inv(db) && a in db.rows && b in db.rows && Live(db.rows[a].rental) && Live(db.rows[b].rental)
    requires db.rows[a].rental.vehicle == db.rows[b].rental.vehicle || db.rows[a].rental.user == db.rows[b].rental.user
    ensures a == b
  {
    assert a == b || Apart(db.rows[a], db.rows[b]);
  }

  /** A later moment. */
  lemma {:induction false} LaterIsInv(db: Db, moment: int)
    requires Inv(db) && WholeMoment(moment) && db.clock <= moment
    ensures Inv(db.(clock := moment))
  {
    var later := db.(clock := moment);
    forall id | id in later.rows
      ensures RowIn(later, id)
    {
      assert RowIn(db, id);
      RowStaysOkLater(id, db.rows[id], db.clock, moment);
    }
    forall v | v in later.vehicles
      ensures VehicleOk(later.vehicles[v], moment)
    {
      assert VehicleOk(db.vehicles[v], db.clock);
    }
  }

  /** One row and the vehicle it names changed together. A vehicle may change under a row that is over only
      when nothing holds it. */
  lemma {:induction false} ChangedIsInv(db: Db, id: nat, row: Row, v: nat, vehicle: Vehicle)
    requires Inv(db) && id in db.rows && v in db.vehicles && row.rental.vehicle == v
    requires Continues(db.rows[id], row)
    requires RowOk(id, row, db.clock) && LedgerOk(row) && HeldOk(row, vehicle) && VehicleOk(vehicle, db.clock)
    requires Live(db.rows[id].rental) || vehicle == db.vehicles[v]
    ensures Inv(WithBoth(db, id, row, v, vehicle))
  {
    var after := WithBoth(db, id, row, v, vehicle);
    forall other | other in after.rows
      ensures RowIn(after, other)
    {
      if other != id {
        assert RowIn(db, other);
        assert Apart(db.rows[id], db.rows[other]);
      }
    }
    forall a, b | a in after.rows && b in after.rows && a != b
      ensures Apart(after.rows[a], after.rows[b])
    {
      assert Apart(db.rows[a], db.rows[b]);
      if a == id {
        StaysApart(db.rows[a], db.rows[b], row);
      } else if b == id {
        assert Apart(db.rows[b], db.rows[a]);
        StaysApart(db.rows[b], db.rows[a], row);
      }
    }
    forall w | w in after.vehicles
      ensures VehicleOk(after.vehicles[w], db.clock)
    {
      assert w != v ==> VehicleOk(db.vehicles[w], db.clock);
    }
  }

  /** A vehicle nobody holds may change on its own. */
  lemma {:induction false} IdleVehicleChangedIsInv(db: Db, v: nat, vehicle: Vehicle)
    requires Inv(db) && VehicleOk(vehicle, db.clock)
    requires forall id :: id in db.rows ==> !HoldsVehicle(db, id, v)
    ensures Inv(db.(vehicles := db.vehicles[v := vehicle]))
  {
    var after := db.(vehicles := db.vehicles[v := vehicle]);
    forall id | id in after.rows
      ensures RowIn(after, id)
    {
      assert RowIn(db, id);
      assert !HoldsVehicle(db, id, v);
    }
    forall a, b | a in after.rows && b in after.rows && a != b
      ensures Apart(after.rows[a], after.rows[b])
    {
      assert Apart(db.rows[a], db.rows[b]);
    }
    forall w | w in after.vehicles
      ensures VehicleOk(after.vehicles[w], db.clock)
    {
      assert w != v ==> VehicleOk(db.vehicles[w], db.clock);
    }
  }

  lemma {:induction false} EndedByNow(id: nat, row: Row, clock: int)
    requires RowOk(id, row, clock) && !Live(row.rental)
    ensures row.rental.endedAt.value <= clock
  {
  }

  /** A reservation added for an account that owes nothing, holds nothing and reserved nothing that day, on a
      vehicle nobody holds. */
  lemma {:induction false} ReservedIsInv(db: Db, id: nat, user: nat, v: nat, zone: nat, rates: Billing.Rates)
    requires Inv(db) && id !in db.rows && v in db.vehicles && !db.vehicles[v].serviceRequired
    requires !AccountOwes(db, user) && !DaySpent(db, user)
    requires forall other :: other in db.rows ==> !HoldsVehicle(db, other, v) && !HoldsAccount(db, other, user)
    ensures Inv(WithBoth(db, id, ReservedRow(user, v, zone, rates, db.clock), v, Announced(db.vehicles[v], false)))
  {
    var row := ReservedRow(user, v, zone, rates, db.clock);
    var after := WithBoth(db, id, row, v, Announced(db.vehicles[v], false));
    forall other | other in after.rows
      ensures RowIn(after, other)
    {
      if other != id {
        assert RowIn(db, other);
        assert !HoldsVehicle(db, other, v);
      }
    }
    forall a, b | a in after.rows && b in after.rows && a != b
      ensures Apart(after.rows[a], after.rows[b])
    {
      if a != id && b != id {
        assert Apart(db.rows[a], db.rows[b]);
      } else {
        var other := if a == id then b else a;
        assert RowIn(db, other) && !HoldsVehicle(db, other, v) && !HoldsAccount(db, other, user);
        NewIsApart(db, other, row);
      }
    }
    forall w | w in after.vehicles
      ensures VehicleOk(after.vehicles[w], db.clock)
    {
      assert VehicleOk(db.vehicles[w], db.clock);
    }
  }

  lemma {:induction false} NewIsApart(db: Db, other: nat, row: Row)
    requires other in db.rows && RowOk(other, db.rows[other], db.clock)
    requires row.rental.reservedAt == db.clock && row.invoice.None?
    requires !HoldsVehicle(db, other, row.rental.vehicle) && !HoldsAccount(db, other, row.rental.user)
    requires !AccountOwes(db, row.rental.user) && !DaySpent(db, row.rental.user)
    ensures Apart(row, db.rows[other]) && Apart(db.rows[other], row)
  {
    if !Live(db.rows[other].rental) {
      EndedByNow(other, db.rows[other], db.clock);
    }
  }
}
