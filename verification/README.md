# Car sharing: the rental lifecycle, its energy, its money and its letters

A Dafny model of the Go backend of a car-sharing service, and proofs about it. It covers the four places where
state and exact arithmetic meet:

1. **Energy.** A vehicle burns its sources one after another over windows of time. Charges are unbounded integers, a
   source may run out inside a window, and the loop that does this must agree with a closed form
   (`Energy`, `Shares`, `Burning`, `Windows`, `Journeys`, `Splitting`, `Travels`, `Storing`, `Distance`).
2. **Rentals.** Reserve, start, pause, resume, finish, cancel, expire, pay, and the ticks and reads that discover a
   run-out, each as one transaction over rentals, segments, invoices and vehicles (`Rentals`, `RowSteps`, `Fleet`,
   `Operations`, `Service`), with one invariant over every run (`Invariants`, `Keeping`, `Lifecycle`, `Runs`), what
   each command achieves and answers, and exactly when it fails (`Outcomes`, `Answers`, `Rollbacks`, `Failures`,
   `Ticks`), what the public version of a vehicle counts (`Announcements`), the independence of how a run-out is
   discovered (`Discovery`, `Courses`), and the rows transactions lock and wait for (`Locking`, `Plans`, `Contention`,
   `Waiting`). `Occasions` and `Deadlock` hold concrete runs that reach the states in which the code breaks a promise.
3. **Deliveries.** The outbox with its leases, the mail box and the payment attempts, together with the rentals they
   speak of (`Outbox`, `Mail`, `Deliveries`), and remembered commands (`Idempotency`).
4. **Exact arithmetic and codecs.** 64-bit billing and invoices, decimal amounts, scope texts and keyset pages
   (`Billing`, `Invoices`, `Digits`, `Amounts`, `Scopes`, `Paging`).

`dafny verify dfyconfig.toml` verifies everything.

## How to read it

- **Specification and code.** What a transaction does is a function from the tables it finds to the tables it leaves,
  or to the failure that rolls it back (`Operations`). The code that works step by step is a method beside it:
  `Journeys.State` updates its sources in place, `Service.Tables` writes rows and vehicles in the order the Go code
  does, `Outbox.Store`, `Outbox.Worker`, `Mail.Mailbox` and `Idempotency.Requests` change their tables, and
  `Locking.DropRepeats` reuses its array. Each method is proved to do what the function says; the lemmas are about
  the functions.
- **Time.** Durations are integer nanoseconds. The clock of the rental tables is a whole microsecond and never falls,
  as the database's is. `Idempotency` counts microseconds, `Outbox` and `Mail` any unit.
- **Transactions.** One step of a run is one transaction, committed or rolled back. Only locking (`Locking`,
  `Contention`, `Waiting`) and the claim of a command key (`Idempotency`) look inside one, because there the waiting is
  the point.
- **History.** Fields that no statement reads, kept for stating what happened: `drove` and `missed` of a rental row
  (the driving its vehicle was charged for, and the driving that was passed over), `passed` of a payment, `claims` of a
  task, `used` and `gone` of the queue, `effects` and `latest` of the remembered commands.
- **The fleet.** Every tick plans the same vehicles, those that have a reading (`Contention.Simulated`). Vehicles get
  their first reading when they are installed and at no other time, and their route then or when a demonstration puts
  them back to it (`backend/internal/fleet/installation.go:45-80`, `backend/internal/fleet/restoration.go`), so the
  fleet is fixed for a run of `Contention`. Ticks over two different fleets could wait for each other in longer rings.
- **Inputs.** What the model does not compute is a parameter of the step that uses it: whether a vehicle is fit and
  available, where a ride may land, what a vehicle's reading begins with, whether a payment is declined, whether an
  answer is lost.

## What the code does otherwise than its documentation says

The model follows the code. Each of these is stated exactly, as the condition under which the promise holds.

- A pause is documented to cost a tenth of driving; a paused nanosecond charges as much as a driven one, and a pause
  merely looks ten times longer when its end is predicted (`backend/internal/simulation/energy.go:73-82` and 126-161).
  Paused windows therefore depend on the moments they are read at: `Burning.PausedIsATenthOnlyInNoTime`,
  `Splitting.BurnOfCutSpan`.
- A ride command or a finish that names an old rental of a vehicle reconciles that vehicle as if nobody used it, even
  while somebody else is driving it (`backend/internal/rentals/ride.go:107-128`,
  `backend/internal/rentals/model.go:218-230`): that driving is never charged against the sources.
  `Discovery.StaleCommandMissesDriving`, and `Occasions.StaleCommandHappens` for a run that gets there.
- Two lock plans leave out a vehicle their transaction may write: the reservation, and the read of notifications
  (`backend/internal/rentals/reserve.go:84-105`, `backend/internal/rentals/notifications.go:52-65`), although no
  transaction is said to take a missing lock at the end (`backend/internal/rentals/command.go:273-276`).
  `Plans.ReserveWritesWithinItsPlanExactlyWhen` and `Plans.NotificationReadWritesWithinItsPlanExactlyWhen` say when
  the vehicle is written, and `Waiting.WholePlansNeverDeadlock` that without such a vehicle nobody ever waits for good.
  With one, `Waiting.DeadlockExactlyWhen` says that a tick and a reservation are the only ones that can wait for each
  other until the database breaks one of them off, and `Deadlock.DeadlockHappens` is a run in which they do. That run
  needs a tick under way for the fifteen minutes of a reservation. The deployed caller of ticks gives up after five
  seconds (`backend/internal/simulator/run.go:19`), and the transaction ends with its request: with that bound on ticks
  `Waiting.Prompt` holds as long as no other transaction is under way for fourteen minutes and 55 seconds, and
  `Waiting.PromptTransactionsNeverDeadlock` excludes the deadlock. A caller of ticks without a timeout takes that away.
- One reaper is said to clean every remembered command (`backend/db/migrations/00013_simulation.sql:106-109`). The
  deletion compares a column that is null in the rows of the installation
  (`backend/internal/idempotency/retention.go:13-21`), so these stay for good, and once a whole batch of them is
  expired nothing is ever deleted again. `Idempotency.SweepEmptiesItsBatchExactlyWhen`, `Idempotency.StalledForever`;
  `Idempotency.StallingHappens` reaches such a state for every batch size.
- The profile of a gas vehicle names LPG before gasoline (`backend/internal/fleet/powertrain.go:28-34`), but sources are
  read back by name (`backend/internal/simulation/store.go:28-32`). `Storing.OrderSurvivesExactlyByName`.
- A cursor is accepted under the scope it was issued for only when that scope was declared in name order, and its
  operation and its parameter names are valid UTF-8, which only the values are checked for
  (`backend/internal/platform/cursor/signer.go:259-268` and 317-341).
  `Scopes.ScopeMatchesItselfExactlyWhenCarried`.
- A segment must last some time (`backend/db/migrations/00008_ride_segments.sql:38`), so a transition, a finish or a
  run-out at the very moment its mode began is rolled back. `RowSteps.MoveRowExactlyWhen`, `RowSteps.EndRowExactlyWhen`.
- A start is documented to be refused on a vehicle out of service, but only its energy is examined
  (`backend/internal/rentals/ride.go:181-195`). It makes no difference: in every reachable state a vehicle somebody
  holds is in service (`Invariants.HeldOk`, kept by `Runs.RunIsKept`).

## Model

| member | source | states |
|---|---|---|
| `Energy.NeedIsWholeNanosecondsLeft` | backend/internal/simulation/energy.go:156-161 | The quotient the code computes from the budget still left is the number of single nanoseconds a source can be driven before it is exhausted, defined by counting them, and at most the window the rates are stated over. |
| `Energy.NeedIsPartOfAnHour` | backend/internal/simulation/energy.go:15-32 | A source is driven for the fewest whole nanoseconds that cover what is left of its capacity over one hour (3_600_000_000_000 ns), and for none exactly when nothing is left. |
| `Energy.ReserveLastsItsPartOfAnHour` | backend/internal/simulation/energy.go:85-122 | A stored reserve drives for as much of an hour as it is of the capacity, rounded up to a nanosecond: a full one for exactly an hour, an empty one for nothing. |
| `Energy.WholeNanosecondsLeftIsAllotted` | backend/internal/simulation/energy.go:139-161 | What a source is allotted in a mode: driving, the time it needs; paused, that time and nine hours more, which the ten times longer period adds. |
| `Energy.BurntIsConsumed` | backend/internal/simulation/energy.go:126-129 | Charging a duration at once is charging its nanoseconds one by one. |
| `Energy.RemainingIsPositiveUntilExhausted` | backend/internal/simulation/energy.go:95-109 | The rounded reserve is positive exactly until the exact charge reaches the budget, and stays between nothing and the capacity. |
| `Energy.StoredReserveIsReported` | backend/internal/simulation/energy.go:85-122 | A source restored from a stored reserve reports that same reserve: rounding to whole units and back loses nothing. |
| `Shares.SharesPartition` | backend/internal/simulation/model.go:193-232 | The shares of the sources are an exact partition of the covered part of a window: they add up to the window, or to everything allotted when that is less. |
| `Shares.CutAgreesExactlyWhenSafe` | backend/internal/simulation/model.go:166-232 | Giving out a window in two parts is giving it out in one exactly when the cut is safe: it does not fall after the source in use became empty and before its allotment ends. |
| `Burning.ChargesPartitionTheWindow` | backend/internal/simulation/model.go:193-232 | Every source is charged its units times its own share, and the shares add up to the time the window was covered. |
| `Burning.DrivingExhaustsAtTheSum` | backend/internal/simulation/model.go:193-232 | A window of driving exhausts everything if and only if the sum of the needs fits it, and driving allots no more than the needs. |
| `Burning.UsedUpAcrossSafeCut` | backend/internal/simulation/model.go:193-232 | The sources reported as used up by the two parts of a safely cut window, put together, are those of the whole, in order. |
| `Burning.CutChargesAgreeExactlyWhenSafe` | backend/internal/simulation/model.go:193-232 | The charges left by a window in two parts equal those of the whole if and only if the cut is safe. |
| `Burning.PausedCostsWhatDrivingCosts` | backend/internal/simulation/energy.go:73-82 | A paused window no longer than the need of the source in use charges exactly what a driven one does, where the comment promises a tenth. |
| `Burning.PausedIsATenthOnlyInNoTime` | backend/internal/simulation/energy.go:73-82 | The promised tenth is charged if and only if the window is empty. |
| `Burning.PausedWindowsDependOnTheirCuts` | backend/internal/simulation/energy.go:156-161 | Two paused sources that survive two nanoseconds read at once, and are exhausted by the same two read one at a time. |
| `Windows.StretchesAreTheClosedForm` | backend/internal/simulation/model.go:193-232 | The loop over sources, stretch by stretch, computes the closed form: the same charges, the same exhausted list, the same covered time and the same moment of running out. |
| `Windows.CutAgreesExactlyAtSafeMoments` | backend/internal/simulation/model.go:166-232 | One window consumed in two parts is the window consumed at once, charges, order of exhaustion, covered time and run-out alike, if and only if the cut is safe. |
| `Windows.ExhaustedStays` | backend/internal/simulation/model.go:193-232 | After everything ran out a further window charges nothing and exhausts nothing again. |
| `Journeys.State.Current` | backend/internal/simulation/model.go:241-248 | The loop finds the first source still in use, and finds none exactly when all are spent. |
| `Journeys.State.Stretch` | backend/internal/simulation/energy.go:126-149 | One source in place is charged for its share of the stretch and tells where the stretch ends. |
| `Journeys.State.Pass` | backend/internal/simulation/model.go:197-229 | One pass of the inner loop: what is left to do is strictly further on among the sources, which is why the loop ends, and what was done followed by what is left is the whole window. |
| `Journeys.State.SpendStretches` | backend/internal/simulation/model.go:193-232 | The loop over one window, changing the sources in place, does what taking it stretch by stretch does, and terminates. |
| `Journeys.State.Consume` | backend/internal/simulation/model.go:193-232 | So it computes the closed form of the window. |
| `Journeys.State.BurnSpans` | backend/internal/simulation/model.go:166-183 | The loop over windows skips the modes that spend nothing, adds only driving to the time in motion and stops where everything ran out. |
| `Journeys.State.CheckSpans` | backend/internal/simulation/model.go:268-283 | The check accepts exactly the windows that run on from the moment of the state, without a gap, to the target. |
| `Journeys.State.Play` | backend/internal/simulation/model.go:105-146 | A journey works on a copy: it answers the specified motion and advanced state, or the specified error, and the state it was asked about is untouched. |
| `Travels.BurntAsDriven` | backend/internal/simulation/model.go:166-183 | The time a journey is in motion is the time of its driving windows up to the run-out; pauses and free windows add nothing. |
| `Travels.JourneysMoveAsTheyDrive` | backend/internal/simulation/model.go:105-146 | A journey moves the path by the whole millimetres nearest to 25 for every 3 microseconds (30 km/h) of driving up to the run-out, by none when nothing is driven, joins the route at the point it joins it, and changes nothing else of where the vehicle is. |
| `Splitting.BurnInTwo` | backend/internal/simulation/model.go:166-183 | Windows burnt in two parts are the windows burnt at once, wherever the first part ran out. |
| `Splitting.JourneyInTwo` | backend/internal/simulation/model.go:105-146 | A journey over any windows may be broken off between two of them and gone on with: sources, depletion, exhausted lists and run-out are those of the whole, also after an earlier depletion. |
| `Splitting.BurnOfCutSpan` | backend/internal/simulation/model.go:166-232 | A window cut in two burns like the window if and only if the cut is safe. |
| `Splitting.DrivingIsSplitInvariant` | backend/internal/simulation/model.go:105-146 | Driving from one moment to another leaves the same charges, depletion, run-out and exhausted list however it is divided, with no condition on where. |
| `Splitting.DrivingRunsOutAtTheSum` | backend/internal/simulation/model.go:105-146 | Driving depletes the state if and only if the sum of the needs fits the window, and then exactly at that sum, where the state stops. |
| `Distance.SplitDistanceStaysNear` | backend/internal/simulation/route.go:40-47 | However driving is divided into n windows, twice the difference of the rounded distances is at most n. |
| `Distance.WholeWindowsAreExact` | backend/internal/simulation/route.go:27-47 | Windows that are multiples of 120 ns add up exactly. |
| `Distance.SplitDistanceCanDiffer` | backend/internal/simulation/route.go:40-47 | The bound is needed: two windows of 60 ns come to a millimetre more than the one of 120. |
| `Storing.OrderSurvivesExactlyByName` | backend/internal/simulation/store.go:21-37 | The sources come back in the order they were saved in if and only if that order is by name; they always come back as the same collection. |
| `Storing.RanksAreNames` | backend/internal/simulation/store.go:28-32 | The order sources are read back in is the dictionary order of their names. |
| `Storing.GasProfileIsReordered` | backend/internal/fleet/powertrain.go:28-34 | The declared order of the gas profile, LPG before gasoline, does not survive being saved. |
| `Storing.StoredStaysUsable` | backend/internal/simulation/store.go:164-193 | A state that was saved can be gone on with, and is as exhausted as it was. |
| `Billing.StartedMinutes` | backend/internal/billing/charge.go:87-97 | The least number of minutes of 60_000_000 microseconds that covers the whole microseconds of a duration; refused exactly for a negative one. |
| `Billing.TimesIsExact` | backend/internal/billing/limits.go:35-44 | The high word of the product tells exactly whether the product leaves 64 bits; otherwise it is exact. |
| `Billing.ComputeIsExact` | backend/internal/billing/charge.go:118-149 | A charge is computed if and only if the durations and rates are not negative and the exact products and their sum fit 64 bits, and then it is them. |
| `Billing.SumMicrosecondsIsExact` | backend/internal/billing/limits.go:21-30 | Two durations add up exactly or are refused, exactly when one is negative or the sum leaves 64 bits. |
| `Billing.RoundingOnceIsNeverDearer` | backend/internal/billing/charge.go:87-97 | Rounding n durations together never costs more than rounding each, and at most n - 1 minutes less. |
| `Invoices.LineIsValidWhenExact` | backend/internal/invoices/linevalidation.go:10-31 | A line is valid exactly when it is of one of the two modes, its duration, minutes and rate are not negative, and its amount is the exact product of minutes and rate, within 64 bits. |
| `Invoices.Validate` | backend/internal/invoices/draftvalidation.go:16-53 | The loop over the two lines accepts exactly the acceptable drafts, and a draft that lacks something is refused for the first thing it lacks. |
| `Invoices.AcceptableIsExact` | backend/internal/invoices/draftvalidation.go:16-53 | A draft is acceptable exactly when it names everything, each line is the exact line of its own mode and the total is their sum within 64 bits. |
| `Invoices.ChargesAreAcceptable` | backend/internal/rentals/ending.go:115-127 | Every charge billing computes makes a draft that is accepted. |
| `Invoices.StoredLineIsTheLine` | backend/internal/invoices/storedline.go:11-19 | The product that is not checked on reading back reproduces each line of an accepted draft. |
| `Invoices.IssuedPaymentOk` | backend/internal/invoices/payment.go:100-106 | The first payment state explains itself, and an invoice is issued as it is issued. |
| `Invoices.SettleKeepsPaymentOk` | backend/internal/invoices/store.go:270-339 | Settling moves waiting to paid or refused and refused to paid only, raises the version by one and keeps moments, reason and version explained by the state. |
| `Rentals.CoverAddsUp` | backend/internal/rentals/store.go:560-565 | The two sums read over segments that tile a stretch of time add up to its length. |
| `RowSteps.MoveRowExactlyWhen` | backend/internal/rentals/ride.go:130-159 | A start, pause or resume is stored if and only if the stage is the one before it, the mode that ends lasted some time and what is due can be priced. |
| `RowSteps.MovedRowIsOk` | backend/internal/rentals/segment.go:36-43 | It closes the open segment and opens the next at one instant: the times recorded so far are the same and the new ride tiles again. |
| `RowSteps.EndRowExactlyWhen` | backend/internal/rentals/ending.go:44-84 | A ride is ended if and only if its mode began before the ending and its price can be computed. |
| `RowSteps.EndedRowIsOk` | backend/internal/rentals/ending.go:44-127 | An ended ride is tiled to its ending, carries its reason and the exact invoice of its two sums at the stored rates, and owes its tasks. |
| `RowSteps.ReleasedRowIsOk` | backend/internal/rentals/cancel.go:149-165 | A reservation is released exactly as cancelled now or as expired at its own deadline. |
| `RowSteps.SettledRowIsOk` | backend/internal/rentals/paymentattempt.go:154-174 | A settled payment leaves everything else of an ended rental as it ended. |
| `Fleet.PlayFailsExactlyWhen` | backend/internal/rentals/model.go:144-213 | Bringing a vehicle to a moment fails only on the first play, and exactly when its reading cannot begin a journey. |
| `Fleet.FirstPlayBegins` | backend/internal/rentals/model.go:164-191 | The first play begins the state at the moment, where the reading has the vehicle and with exactly the sources it holds, and plays nothing. |
| `Fleet.LaterPlayMovesOn` | backend/internal/rentals/model.go:91-138 | A later play goes on from the moment of the state, covers the window or stops where it ran out, and changes no source in a mode that spends nothing. |
| `Fleet.OneWindow` | backend/internal/rentals/model.go:205-249 | One window played: it reaches the moment, or runs out with every carried source named, even those exhausted before. |
| `Service.Tables.constructor` | backend/internal/rentals/command.go:182-216 | Empty tables over an installed fleet. |
| `Service.Tables.LiveRentalOn` | backend/internal/rentals/store.go:78-120 | Finds the one live rental of a vehicle, or that it has none. |
| `Service.Tables.LiveRentalOf` | backend/internal/rentals/store.go:78-120 | Finds the one live rental of an account, or that it has none. |
| `Service.Tables.ModeDurations` | backend/internal/rentals/progress.go:49-75 | The loop over segments sums driving and paused up to a moment, counting an open segment to it. |
| `Service.Tables.ReadProgress` | backend/internal/rentals/progress.go:15-30 | The two sums are priced at the stored rates. |
| `Service.Tables.CloseOpen` | backend/internal/rentals/segment.go:20-23 | Closes every open segment, or fails the check that a segment lasts some time. |
| `Service.Tables.PublishChange` | backend/internal/rentals/announce.go:18-34 | Raises the version of the vehicle and takes it out of service after a run-out. |
| `Service.Tables.EndStored` | backend/internal/rentals/ending.go:44-84 | The ordered writes of an ending come to the specified row, or to the first failure. |
| `Service.Tables.End` | backend/internal/rentals/ending.go:44-84 | The ending together with the announcement of its vehicle. |
| `Service.Tables.EndDue` | backend/internal/rentals/cancel.go:149-165 | Ends an overdue reservation at its own deadline. |
| `Service.Tables.ReleaseWhenDue` | backend/internal/rentals/expiry.go:64-85 | Releases the reservation that was found exactly when it is overdue. |
| `Service.Tables.Play` | backend/internal/rentals/model.go:91-138 | Restores or begins the state and plays one window of it. |
| `Service.Tables.Book` | backend/internal/rentals/model.go:91-138 | Saves the advanced state. |
| `Service.Tables.ReconcileVehicle` | backend/internal/rentals/model.go:38-53 | Brings one vehicle to the moment in the mode of the rental it was handed, and ends that ride when it ran out. |
| `Service.Tables.MovePrepared` | backend/internal/rentals/ride.go:130-159 | Moves the stage and the segments together. |
| `Service.Tables.RideOn` | backend/internal/rentals/ride.go:130-176 | Judges the reconciled rental and moves it, or refuses. |
| `Service.Tables.RideAlong` | backend/internal/rentals/ride.go:76-105 | Start, pause and resume. |
| `Service.Tables.FinishOn` | backend/internal/rentals/finish.go:40-99 | Depletion found by the finish takes precedence over it. |
| `Service.Tables.Finish` | backend/internal/rentals/finish.go:40-113 | Finish, and the stored ending on a repeat. |
| `Service.Tables.Cancel` | backend/internal/rentals/cancel.go:64-125 | Cancels, or records the expiry it found. |
| `Service.Tables.ReleaseBoth` | backend/internal/rentals/reserve.go:136-169 | Brings both live relationships to the moment. |
| `Service.Tables.Reserve` | backend/internal/rentals/reserve.go:108-133 | The whole of a reservation. |
| `Service.Tables.Create` | backend/internal/rentals/reserve.go:214-255 | Inserts the reservation unless the account or the vehicle is taken. |
| `Service.Tables.CurrentOn` | backend/internal/rentals/current.go:97-129 | Reads again after the reconciliation. |
| `Service.Tables.Current` | backend/internal/rentals/current.go:66-129 | The read that performs transitions. |
| `Service.Tables.ReadNotifications` | backend/internal/rentals/notifications.go:19-50 | Releases the caller's overdue reservation before the read, and nothing else. |
| `Service.Tables.ExpireOne` | backend/internal/rentals/expiry.go:48-55 | One step of the sweep judges again under its locks. |
| `Service.Tables.ReadHolders` | backend/internal/rentals/tick.go:69-95 | The loop reads who holds each vehicle. |
| `Service.Tables.TickFleet` | backend/internal/rentals/model.go:58-85 | The loop over the fleet reconciles each vehicle for the holder read before the loop and lists the rides it completed, in order. |
| `Service.Tables.Transact` | backend/internal/rentals/command.go:281-318 | A transaction commits what was specified or leaves the tables as it found them, and keeps the invariant either way. |
| `Service.Tables.SweepDue` | backend/internal/rentals/sweep.go:36-82 | The loop runs each due reservation in a transaction of its own, counts the moved ones and leaves the tables of that run. |
| `Keeping.ReconcileIsKept` | backend/internal/rentals/model.go:91-138 | Reconciling one vehicle for the rental it was read under keeps the invariant and lets every stored rental only evolve. |
| `Keeping.LiveAtIsKept` | backend/internal/rentals/expiry.go:64-85 | Releasing what is overdue never fails and keeps the invariant. |
| `Keeping.EndReservationIsKept` | backend/internal/rentals/cancel.go:149-165 | An expired reservation ends at its deadline, in the past of the transaction that found it. |
| `Lifecycle.RideIsKept` | backend/internal/rentals/ride.go:76-159 | Start, pause and resume keep the invariant. |
| `Lifecycle.FinishIsKept` | backend/internal/rentals/finish.go:40-86 | A finish keeps it. |
| `Lifecycle.CancelIsKept` | backend/internal/rentals/cancel.go:64-125 | A cancellation keeps it and never fails. |
| `Lifecycle.ExpireIsKept` | backend/internal/rentals/expiry.go:48-55 | An expiry keeps it and never fails. |
| `Lifecycle.ReserveIsKept` | backend/internal/rentals/reserve.go:108-255 | A reservation keeps it and never fails, also when it refuses after it released something. |
| `Lifecycle.CurrentIsKept` | backend/internal/rentals/current.go:66-129 | The read keeps it. |
| `Lifecycle.TickIsKept` | backend/internal/rentals/tick.go:44-64 | A tick over any vehicles without repeats keeps it. |
| `Lifecycle.AttemptIsKept` | backend/internal/rentals/paymentattempt.go:112-138 | The service's attempt keeps it. |
| `Lifecycle.PayIsKept` | backend/internal/rentals/pay.go:62-91 | A manual payment keeps it. |
| `Runs.RunIsKept` | backend/internal/rentals/command.go:281-318 | Every run of transactions, with rollbacks, at whole moments that never fall, keeps the invariant, and every stored rental only evolves: what ended stays as it ended but for its payment, and closed segments are never written again. |
| `Runs.RidesHaveOneOpenSegment` | backend/internal/rentals/segment.go:36-43 | In every reachable state a ride in progress has exactly one open segment, the last, in the mode of its stage, begun with the mode; and the moment its vehicle accounts for lies between that and now. |
| `Runs.EndedRidesAreTiled` | backend/internal/rentals/ending.go:44-84 | The segments of every completed ride tile it from start to end, and the two sums add up to its length. |
| `Runs.CompletedRidesAreInvoicedOnce` | backend/internal/rentals/ending.go:99-127 | A rental has an invoice if and only if it is completed, and then the invoice names the ride, its account, its reason and what had run out; each line states the time of its own mode in whole microseconds, the minutes begun in it, the rate stored with the rental and their product; the total is their sum, and the payment is owed exactly when it is positive. |
| `Runs.RentalsNeverOverlap` | backend/internal/rentals/reserve.go:108-255 | Over whole histories no account and no vehicle has two rentals at one moment, and a midnight of Bishkek (18:00 UTC) lies between any two reservations of one account. |
| `Invariants.ServiceDaysEndAtMidnight` | backend/internal/rentals/store.go:548-558 | Two moments are of one service day if and only if no midnight of the service timezone, six hours ahead of UTC, lies after one and at or before the other. |
| `Runs.DebtIsSingle` | backend/internal/rentals/reserve.go:172-197 | An account owes one positive unpaid invoice at most, and none together with a live rental. |
| `Runs.PaymentsExplainThemselves` | backend/internal/invoices/payment.go:78-106 | Moments and reason of every payment are exactly those of its state, and over every run its version is one more than the transitions it made: waiting, refused once at most, paid for good. |
| `Runs.ChargedDrivingIsDriven` | backend/internal/rentals/model.go:91-138 | Every nanosecond the model charged as driving is recorded as driving; what was driven is charged, to the part of a microsecond, exactly when nothing was missed. |
| `Failures.OnlyExpectedFailures` | backend/internal/rentals/command.go:281-318 | In every reachable state a transaction rolls back only because a mode would have lasted no time, a number is out of range, or a reading cannot begin a journey; and only a ride command, a finish, the current read or a tick does. |
| `Ticks.ReconcileFailsExactlyWhen` | backend/internal/rentals/model.go:91-138 | Bringing one vehicle to the moment for the rental that holds it fails exactly when its reading begins no journey on its first play, or its ride has run out where its mode lasted no time or what it took cannot be priced. |
| `Ticks.TickFailsExactlyWhen` | backend/internal/rentals/tick.go:44-64 | In every reachable state a tick is rolled back for the whole fleet if and only if one such vehicle is among those it visits. |
| `Discovery.MovingRidesAwaitOneFate` | backend/internal/rentals/model.go:91-138 | In every reachable state a moving ride has a run-out ahead of it exactly when something is left in its sources, and then one only, read off the stored state. |
| `Discovery.PlayKeepsTheFate` | backend/internal/simulation/model.go:105-146 | A window of driving, or of a pause that has not lasted as long as the need of the source in use when it began, leaves the run-out where it was or runs out at it. |
| `Discovery.ReconcilingDiscovers` | backend/internal/rentals/model.go:91-138 | Reconciling a ride that moves or pauses shortly ends it exactly when its run-out has come, at the first whole microsecond after it and with every carried source. |
| `Discovery.StepFollows` | backend/internal/rentals/model.go:91-138 | Every committed transaction that is not a turn of its rider leaves the ride on its way or ended by its run-out, and one that reconciles it after the run-out ends it. |
| `Discovery.TurnFollows` | backend/internal/rentals/ride.go:130-176 | A pause, a resume or a finish of its rider before the run-out takes the ride exactly to the row that its own stored row and the moment decide, with the run-out where it was. |
| `Discovery.FinishEndsBeforeTheRunOutOnly` | backend/internal/rentals/finish.go:40-86 | A finish ends a ride as the person asked if and only if it comes strictly before the run-out; otherwise the ride ends as its sources did. |
| `Discovery.StaleCommandMissesDriving` | backend/internal/rentals/ride.go:107-128 | A command naming an old rental of the vehicle passes over the driving since the last moment uncharged: the run-out moves by exactly that window, and stays if and only if it is empty. |
| `Occasions.StaleCommandHappens` | backend/internal/rentals/ride.go:107-128 | A run from an installation ends with a ride under way, driving not yet charged, and an old rental of the vehicle its first account can name in a finish. |
| `Courses.TurnsDecideTheCourse` | backend/internal/rentals/ride.go:76-159 | Of a whole run, the starts, pauses, resumes and finishes of the rider before the run-out decide the course of the ride, and nothing else. |
| `Courses.RunFollows` | backend/internal/rentals/model.go:91-138 | Over every run, with pauses shorter than the need of the source in use at their start and no command naming an old rental of the vehicle, the ride is where its course says: on its way, ended by its run-out, or ended by its rider. |
| `Courses.FateDecidesTheInvoice` | backend/internal/rentals/ending.go:99-127 | The invoice of a ride that ran out is the billing of its segments closed at the run-out, with every carried source named. |
| `Courses.DiscoveriesAgree` | backend/internal/rentals/ending.go:44-127 | Two runs with the same turns of the rider at the same moments and any other ticks, reads and attempts between, pauses included, store the same ending, reason, exhausted list, segments, lines and total. |
| `Courses.StartSetsTheCourse` | backend/internal/rentals/ride.go:130-159 | A start puts the ride on a course read off the sources its vehicle held while it waited, whenever it was last looked at. |
| `Courses.FullVehiclesRunOutAfterAnHourEach` | backend/internal/simulation/energy.go:15-32 | A ride that starts on a vehicle whose sources are full awaits its run-out exactly one hour later for each source. |
| `Outcomes.ReserveSucceedsExactlyWhen` | backend/internal/rentals/reserve.go:108-255 | A reservation is granted if and only if the account owes nothing, has not reserved since the last midnight of Bishkek and holds nothing that is not overdue, and the vehicle is in service, offered and held by nobody whose time is not over; it lasts fifteen minutes. A refused one adds nothing and names the first of these in that order. |
| `Outcomes.StartsExactlyWhen` | backend/internal/rentals/ride.go:76-195 | A start sets off exactly a reservation of the caller before its deadline on a fit vehicle, with one open segment; one at its deadline or later is ended there. |
| `Outcomes.ModeChangesExactlyBeforeTheRunOut` | backend/internal/rentals/ride.go:76-176 | A pause or a resume changes the mode of a ride if and only if it comes before the run-out; otherwise the ride has ended and the command is refused. |
| `Outcomes.CancelsExactlyBeforeTheDeadline` | backend/internal/rentals/cancel.go:64-140 | A cancellation ends exactly a reservation of the caller before its deadline, now; at the deadline or later it is expired there, and anything else is left alone; each refusal says what the rental is. |
| `Outcomes.ExpiresExactlyWhenOverdue` | backend/internal/rentals/expiry.go:48-55 | A step of the sweep moves exactly a reservation that is overdue under its locks, to its own deadline. |
| `Outcomes.AttemptsExactlyWhatWaits` | backend/internal/rentals/paymentattempt.go:112-174 | The service tries exactly a payment that waits: it is then paid, or refused, at this moment and one version later; nothing else changes, and it never fails. |
| `Outcomes.PaymentsMoveExactlyWhen` | backend/internal/rentals/pay.go:62-91 | An invoice of another account is answered like one that does not exist; one of the own account that waits is in progress, one that is paid is shown as it is, and one that was refused is paid at this moment and shown paid; nothing else changes, and it never fails. |
| `Answers.CurrentShowsTheHolder` | backend/internal/rentals/current.go:66-129 | The read answers exactly the rental that holds the account in the tables it leaves, nothing exactly when none does, and leaves none that is overdue. |
| `Answers.RidesAreShownUntilTheRunOut` | backend/internal/rentals/current.go:97-129 | A ride that moves, or pauses shortly, is answered if and only if its run-out has not come; afterwards nothing is current. |
| `Answers.ReservationsAreShownUntilTheDeadline` | backend/internal/rentals/current.go:97-129 | A reservation is answered if and only if its deadline has not come; otherwise it has ended there and nothing is current. |
| `Answers.RidesAnswerForTheirStage` | backend/internal/rentals/ride.go:107-195 | What start, pause and resume answer to every rental they can find: whose it is, that it ran out, that its time is over, that it stands in another stage, that its vehicle is unfit, or that it moved. |
| `Answers.FinishesAnswerTheStoredEnding` | backend/internal/rentals/finish.go:40-113 | A finish answers the invoice stored with the ending, whether it ended the ride, found it run out or repeats; where the vehicle may not be left it answers why and ends nothing that had not run out. |
| `Answers.TicksNameWhatTheyEnd` | backend/internal/rentals/tick.go:44-64 | A tick names exactly the rentals that were live before it and are over after it, all run out, in the order of the fleet. |
| `Rollbacks.RideFailsExactlyWhen` | backend/internal/rentals/ride.go:76-159 | A start, pause or resume is rolled back if and only if the vehicle of the rental cannot be brought to its moment, or the rental did not run out by then, is what the command applies to, and the mode it leaves has lasted no time or what is due cannot be priced. |
| `Rollbacks.FinishFailsExactlyWhen` | backend/internal/rentals/finish.go:40-113 | A finish is rolled back if and only if the vehicle cannot be brought to its moment, or the ride did not run out by then, may be left there, and its mode has lasted no time or its price cannot be computed; a repeat is not. |
| `Rollbacks.CurrentFailsExactlyWhen` | backend/internal/rentals/current.go:66-129 | The read of what is current fails if and only if the account is in a ride whose vehicle cannot be brought to the moment, or which did not run out by then and cannot be priced. |
| `Announcements.EveryChangeIsAnnounced` | backend/internal/rentals/announce.go:18-34 | In every reachable state the version of a vehicle is the installed one plus the versions of all its rentals: every change of a rental raised it once, nothing else did; and it is out of service exactly when it was installed so or a ride on it ran out. |
| `Outbox.ClaimingKeeps` | backend/internal/outbox/store.go:65-98 | A claim adds one claim to the history and raises attempts by one. |
| `Outbox.SettlingKeeps` | backend/internal/outbox/store.go:104-138 | Only the last claim, inside its lease, settles; it completes the task for good or frees it. |
| `Outbox.StatementKeeps` | backend/internal/outbox/store.go:32-164 | Every statement keeps the queue and lets every task only evolve. |
| `Outbox.RunKeeps` | backend/internal/outbox/store.go:32-164 | So does every run. |
| `Outbox.OneClaimCanSettle` | backend/internal/outbox/store.go:104-138 | Over every run at most one token can settle a task at any moment, that of its last claim, which is unsettled and unexpired. |
| `Outbox.OvertakenClaimsChangeNothing` | backend/internal/outbox/store.go:104-138 | The statements of an overtaken claim change no row, whatever ran meanwhile. |
| `Outbox.ClaimsLastTheirLease` | backend/internal/outbox/store.go:65-98 | Over every run that does not settle it for its own claim, a claimed task is left alone until its lease ends, its worker may settle it exactly until then, and exactly from then on it can be claimed again. |
| `Outbox.RefusedTasksWait` | backend/internal/outbox/store.go:112-138 | Over every run a refused task is left alone until its delay is over, and can be claimed exactly from then on. |
| `Outbox.TasksAreDeliveredOnce` | backend/internal/outbox/store.go:143-164 | A task is settled as delivered once at most, never changes afterwards, and is not deleted before; its attempts are its claims. |
| `Outbox.Store.RecordTasks` | backend/internal/outbox/store.go:38-57 | The loop stores all tasks one change records, each due at once and claimed by nobody, and touches no other task. |
| `Outbox.Store.TakeNext` | backend/internal/outbox/store.go:65-98 | Takes the earliest of the claimable tasks that no other transaction has locked, and none only when every claimable task is locked. |
| `Outbox.Store.CompleteTask` | backend/internal/outbox/store.go:121-127 | Completes the task exactly for the holder of an unexpired lease. |
| `Outbox.Store.FailTask` | backend/internal/outbox/store.go:131-138 | Frees it for a later attempt, exactly for that holder. |
| `Outbox.Store.DeleteCompleted` | backend/internal/outbox/store.go:143-164 | Deletes the tasks of the named kinds that were delivered and kept long enough, the oldest deliveries first: all of them, or as many as the limit. |
| `Outbox.Worker.DeliverClaim` | backend/internal/outbox/worker.go:113-158 | One attempt settles by its outcome and counts itself exactly when the row was still its own; a worker that is stopping leaves the row. |
| `Mail.LetterAsIssuedIsSettled` | backend/internal/invoices/invoice.go:101-108 | The letter about an invoice as issued is the same before and after any settlement. |
| `Mail.LetterAsItStandsIsNot` | backend/internal/invoices/letter.go:62-75 | Rendered from the invoice as it stands, it is the same if and only if the status did not change. |
| `Mail.AcceptKeepsLetters` | backend/internal/mailstub/store.go:90-125 | A recipient of 1 to 254 characters is accepted; accepting keeps every stored letter, conflicts exactly with a different letter under the key, and adds one exactly when the key is new; an answer is dropped only for a new letter, which spends the demand. |
| `Mail.SecondDeliveryIsARepeat` | backend/internal/mailstub/store.go:90-125 | A second delivery of the same letter answers the first and changes nothing. |
| `Mail.Mailbox.Store` | backend/internal/mailstub/store.go:90-157 | Insert unless present, then compare what is there. |
| `Mail.Mailbox.Accept` | backend/internal/mailstub/accept.go:48-74 | The letter and the demand to drop the answer are stored together, or neither. |
| `Deliveries.EventKeeps` | backend/internal/outbox/worker.go:113-158 | Every event of workers, crashes, lost answers, payments and rental transactions keeps the joint invariant. |
| `Deliveries.RunKeeps` | backend/internal/outbox/worker.go:113-158 | So does every run of them. |
| `Deliveries.ExactlyOneLetter` | backend/internal/mailstub/delivery.go:52-77 | A completed letter task has its letter in the box, to the account of the ride and stating the moment, the reason with the sources that ran out, the minutes, rate and amount of each mode and the total of its invoice as issued; it never changes in any later run, and no attempt ever met a conflict. |
| `Deliveries.EndingsAreOwedOnce` | backend/internal/rentals/ending.go:140-194 | Every completed ride has exactly one letter task, and exactly one payment task if and only if its total is positive. |
| `Deliveries.OneFirstAttempt` | backend/internal/rentals/paymentattempt.go:112-174 | A completed payment task has settled its payment, and a further attempt of the service changes no row. |
| `Deliveries.InstalledWorldIsOk` | backend/internal/outbox/worker.go:44-64 | An installation satisfies the joint invariant. |
| `Locking.PlannedLocksAreOrdered` | backend/internal/rentals/command.go:239-245 | Ascending users, vehicles and rentals are locked in one strict order. |
| `Locking.WithoutRepeatsRises` | backend/internal/rentals/reserve.go:280-321 | Sorted identifiers without repeats are strictly ascending and the same set. |
| `Locking.DropRepeats` | backend/internal/rentals/reserve.go:312-321 | The loop that reuses the slice keeps exactly the first of each run of equals. |
| `Locking.PlannedLockingNeverDeadlocks` | backend/internal/rentals/command.go:342-352 | In every run of transactions taking planned rows in order, among any of them one is not blocked by the others. |
| `Contention.TransactionsHaveTheirEffect` | backend/internal/rentals/command.go:281-318 | Every transaction of the service writes only rows it planned and the vehicle its plan omits, adds rentals only of planned accounts and vehicles, and lets rentals only evolve. |
| `Contention.LocksAreTheRows` | backend/internal/rentals/command.go:239-245 | What is locked for a plan is exactly its rows, in the one order. |
| `Contention.PlansNameTheOwners` | backend/internal/rentals/command.go:320-337 | A plan that names a rental names the account it belongs to. |
| `Contention.RunKeeps` | backend/internal/rentals/command.go:281-318 | In every run of the service's own transactions, begun, waiting, confirmed under their locks, finished or given up, no row is held twice and what each found under its locks stays so until it ends. |
| `Waiting.StuckForOneReason` | backend/internal/rentals/command.go:342-352 | Whenever transactions of the service wait for each other for good, a tick and a reservation of them do, the reservation wants the vehicle of the overdue reservation its account holds, and the tick was planned before that one was made. |
| `Waiting.DeadlockExactlyWhen` | backend/internal/rentals/reserve.go:84-105 | Some group of transactions is stuck if and only if some tick and some reservation wait for each other. |
| `Waiting.WholePlansNeverDeadlock` | backend/internal/rentals/reserve.go:136-169 | In every run in which no transaction acts on a plan that leaves out a vehicle it will write, which the tables it finds decide before it takes that row, of every group of transactions one is not blocked by the others. |
| `Waiting.PromptTransactionsNeverDeadlock` | backend/internal/rentals/reserve.go:84-105 | While no tick is under way longer than some time and no other transaction longer than what that time leaves of the fifteen minutes of a reservation, of every group of them one is not blocked by the others, in every run. |
| `Deadlock.DeadlockHappens` | backend/internal/rentals/reserve.go:136-169 | A run from an installation of two vehicles that have a reading ends with a tick and a reservation waiting for each other. |
| `Locking.TryOnce` | backend/internal/rentals/command.go:289-308 | One attempt works exactly when it planned, locked and found the planned rows again; it is stored exactly when it also commits, and otherwise answers its first failure. |
| `Locking.Transact` | backend/internal/rentals/command.go:281-318 | The loop makes at most five attempts, starts over from exactly those that lost a race at any of their steps, and succeeds exactly with an attempt that was stored. |
| `Contention.SameListsSamePlan` | backend/internal/rentals/command.go:247-253 | Comparing the ordered lists a transaction finds under its locks with those it planned is comparing the rows themselves; so the attempts that go on are exactly those whose rows did not change. |
| `Locking.SameRows` | backend/internal/rentals/command.go:249-265 | The comparison answers exactly whether the two plans are equal. |
| `Plans.RideWritesWithinItsPlan` | backend/internal/rentals/ride.go:57-105 | Start, pause and resume write no rental and no vehicle outside the rows they locked. |
| `Plans.FinishWritesWithinItsPlan` | backend/internal/rentals/finish.go:31-86 | Nor does a finish. |
| `Plans.CancelWritesWithinItsPlan` | backend/internal/rentals/cancel.go:32-91 | Nor does a cancellation. |
| `Plans.SweepWritesWithinItsPlan` | backend/internal/rentals/sweep.go:65-82 | Nor does a step of the sweep. |
| `Plans.PaymentWritesWithinItsPlan` | backend/internal/rentals/paymentattempt.go:93-138 | Nor does a payment. |
| `Plans.CurrentWritesWithinItsPlan` | backend/internal/rentals/current.go:66-147 | Nor does the read of what is current. |
| `Plans.TickWritesWithinItsPlan` | backend/internal/rentals/tick.go:44-95 | Nor does a tick. |
| `Plans.EveryTransactionWritesWithin` | backend/internal/rentals/command.go:281-318 | No transaction writes a rental or a vehicle outside its plan and the one vehicle that plan omits. |
| `Plans.PlansReachNoFurther` | backend/internal/rentals/cancel.go:30-61 | No plan but a tick's reaches further than it has to: at most two accounts, one vehicle and three rentals, each the one that acts or is named, or one that holds the account or the vehicle. |
| `Plans.TicksReachTheirFleet` | backend/internal/rentals/tick.go:69-95 | A tick plans its fleet, exactly the rentals that hold a vehicle and exactly the accounts of those. |
| `Plans.ReserveWritesWithinItsPlanExactlyWhen` | backend/internal/rentals/reserve.go:84-105 | A reservation does so if and only if the caller holds no overdue reservation of another vehicle. |
| `Plans.NotificationReadWritesWithinItsPlanExactlyWhen` | backend/internal/rentals/notifications.go:52-65 | The notification read does so if and only if the caller holds no overdue reservation. |
| `Occasions.OverdueElsewhereHappens` | backend/internal/rentals/reserve.go:84-105 | A run from an installation ends with an account holding an overdue reservation of another vehicle than the one it may ask for. |
| `Idempotency.StepKeeps` | backend/internal/idempotency/store.go:84-146 | Every statement of every racing attempt, and every sweep, keeps the invariant of keys, rows and changes. |
| `Idempotency.ChangesOfAKeyAreFarApart` | backend/internal/rentals/reserve.go:43-80 | However attempts race, roll back and repeat, two committed changes under one key are an account's and at least a day apart; under a key of the installation there is one ever. |
| `Idempotency.AnswersAgree` | backend/internal/idempotency/store.go:112-126 | Two answers given under one key are the same answer to the same command, or stem from changes a day apart. |
| `Idempotency.OnlyAnsweredAttemptsChange` | backend/internal/rentals/reserve.go:43-80 | Every change belongs to one attempt that was answered with it, or whose answer was lost: refused, mismatched, busy and broken attempts change nothing. |
| `Idempotency.StoredAnswersAreTheLastOnes` | backend/internal/idempotency/retention.go:13-21 | For a day the answer of a change is still stored, for the installation always. |
| `Idempotency.RepeatsAreAnswered` | backend/internal/idempotency/store.go:60-126 | Within a day of a change an attempt that comes to its key is answered as the change was when it is the same command, and refused as another command when it is not. |
| `Idempotency.WaitersAreToldBusy` | backend/internal/idempotency/store.go:84-108 | While another attempt holds its key, one that comes to it cannot take it, and giving up leaves everything as it was. |
| `Idempotency.OneHolder` | backend/internal/idempotency/store.go:60-108 | Two attempts never hold one key, and none holds a key that is answered. |
| `Idempotency.SweepEmptiesItsBatchExactlyWhen` | backend/internal/idempotency/retention.go:13-21 | A sweep removes the rows it selected if and only if none is the installation's, and removes nothing it did not select. |
| `Idempotency.StalledSweepDeletesNothing` | backend/internal/idempotency/retention.go:13-29 | Behind as many older rows of the installation as a batch holds, a sweep deletes nothing. |
| `Idempotency.StalledForever` | backend/internal/idempotency/retention.go:13-29 | Nor does any later sweep in any later run. |
| `Idempotency.StallingHappens` | backend/internal/idempotency/retention.go:13-29 | For every batch size a run from an empty table ends with the sweep stalled while the answer of an account is due for deletion. |
| `Idempotency.Requests.ClaimKey` | backend/internal/idempotency/store.go:60-126 | Takes the key, answers what it holds, or refuses, by the state of the table. |
| `Idempotency.Requests.Answer` | backend/internal/rentals/reserve.go:43-80 | A whole command: replayed, refused, rolled back without a trace, or decided and stored in one. |
| `Amounts.ParseAmountIsExact` | backend/internal/fleet/amount.go:43-73 | A text is accepted if and only if it is well formed and its value in millionths fits 64 bits, and then parses to exactly that value. |
| `Amounts.DecimalStatesTheAmount` | backend/internal/fleet/amount.go:25-34 | The printed decimal is well formed and states the amount in millionths. |
| `Amounts.AmountRoundTrip` | backend/internal/fleet/amount.go:25-64 | Every amount from zero to the greatest 64-bit number is read back from its decimal. |
| `Amounts.DecimalNeverTrails` | backend/internal/fleet/amount.go:25-34 | A decimal has a point exactly when the amount is not whole, and then never ends in a zero. |
| `Digits.PrintedIsRead` | backend/internal/fleet/amount.go:25-34 | The decimal digits of a number are read back as that number. |
| `Scopes.ScopeTextIsInjective` | backend/internal/platform/cursor/signer.go:288-313 | Two scopes with equal text have the same operation, owner text and parameters in order, whatever bytes they contain. |
| `Scopes.CarriedExactlyWhenUtf8` | backend/internal/platform/cursor/signer.go:186-207 | A text comes back from a payload unchanged if and only if it is valid UTF-8. |
| `Scopes.ScopeMatchesItselfExactlyWhenCarried` | backend/internal/platform/cursor/signer.go:231-284 | A valid scope that was issued and read back is valid and matches itself if and only if it declares its parameters by name, and its operation and its names are valid UTF-8. |
| `Scopes.Validate` | backend/internal/platform/cursor/signer.go:317-341 | The loop accepts exactly the valid scopes: named, not too long, values in valid UTF-8, no name twice. |
| `Scopes.ByNameIsInOrder` | backend/internal/platform/cursor/signer.go:259-277 | What is read back is in the order of its names and names nothing that was not written. |
| `Scopes.ByNameKeepsAll` | backend/internal/platform/cursor/signer.go:196-199 | Parameters named apart are all kept. |
| `Paging.Cut` | backend/internal/platform/cursor/page.go:6-13 | A page is a prefix of at most the limit, and names its last item exactly when something follows. |
| `Paging.PageAndRest` | backend/internal/invoices/collection.go:34-63 | A page and what lies behind its position are what lay before it. |
| `Paging.AfterIsWhatIsBelow` | backend/internal/platform/cursor/keyset.go:7-14 | The selection from a position is exactly the items strictly below it. |
| `Paging.WalkIsComplete` | backend/internal/invoices/collection.go:34-67 | Whatever is added above the reader between two reads, a walk publishes every item that was below its position, once, in strictly descending order, and ends. |
| `Paging.QuietWalkReadsEverything` | backend/internal/platform/cursor/page.go:6-13 | From no position, for any limit, a collection at rest is read whole. |

## Left out

- Demonstration actions, seeds and the restoring of a scenario: prepared rides carry no segments, so they are outside the lifecycle the invariant is about.
- Servicing and refilling a vehicle: nothing here puts a depleted vehicle back in service.
- Mail.Mailbox.Store: does not model the rules that a delivery key is known and that a letter has a subject and at most 262144 bytes of text, because a letter is modelled by what it states and not by its wording.
- Outbox.Store.DeleteCompleted: does not tell the announced kinds apart, because the one caller names all of them.
- Warnings and notifications: the rows they write and their read flags; of the read of notifications only the release of an overdue reservation is modelled, with the rows it locks.
- Locks on other tables than accounts, vehicles and rentals, and the confirmation of a vehicle's reading, which takes no planned lock: `Contention` lets readings change at any time.
- Signals to watching clients: an announcement is an outbox task of its own kind, and what it says is not modelled.
- The route, positions, zones and the freshness of telemetry: floating point and geometry; whether a ride may land and whether a vehicle confirms itself are parameters of a step.
- The catalog: whether a vehicle nobody holds is offered at all is a parameter, its service apart.
- The wording of letters and the printing of money: a letter is modelled by what it states.
- The delay before a failed task is tried again, and its jitter: any delay is allowed.
- HTTP, the rendering of answers, authentication, rate limits and sessions.
- The signature and the base64 of a cursor, and of its JSON everything but what it does to texts and to the order of names: characters stand for bytes.
- The sorting of identifiers by the library: a sorted list is the starting point of `Locking.WithoutRepeatsRises`.
- Deleting an account: an account that owes an invoice cannot be deleted, so a letter's recipient stays what it was; this is part of what `Deliveries.Enabled` allows.
- Changing the payment outcome demanded for a ride: whether an attempt is declined is a parameter of the attempt.
- Isolation inside a transaction: a statement that follows a wait sees what was committed, and rows under a lock do not change; the database is trusted with that.
- Rental and invoice identifiers: one number stands for both, since a ride has one invoice; a second invoice for a ride is modelled as the failure its unique index makes it.
- Places on the map: a journey's path in millimetres and the end of its approach are modelled, the position that path stands for is not.
- Durations longer than 64-bit nanoseconds: reading them is modelled as the failure it is, not as a value.
- Operations.TickWithin: does not name the vehicles a tick moved, only the rentals it ended; which vehicles spend anything is the mode of their rental.
- Operations.ServiceDay: Bishkek is taken to be six hours ahead of UTC at every moment, as it has been since 2005.
