/** How far a window of driving moves a vehicle, in whole millimetres
    (backend/internal/simulation/route.go, `travelled` only). */
module Distance {

  const SPEED_NUMERATOR: int := 25
  const SPEED_DENOMINATOR: int := 3
  const NANOSECONDS_PER_MICROSECOND: int := 1_000

  /** Nanoseconds that cover `SPEED_NUMERATOR` millimetres. */
  const PER_MILLIMETRE: int := SPEED_DENOMINATOR * NANOSECONDS_PER_MICROSECOND

  /** Rounded to the nearest millimetre; the window is never negative, so `/` is the source's quotient. */
  function Travelled(window: nat): int {
    (window * SPEED_NUMERATOR + PER_MILLIMETRE / 2) / PER_MILLIMETRE
  }

  function Sum(windows: seq<nat>): (total: nat) {
    if windows == [] then 0 else windows[0] + Sum(windows[1..])
  }

  function SumTravelled(windows: seq<nat>): (total: int) {
    if windows == [] then 0 else Travelled(windows[0]) + SumTravelled(windows[1..])
  }

  /** Each window is off by at most half a millimetre, so n of them are off by at most n halves. */
  lemma {:induction false} SumStaysNear(windows: seq<nat>)
    ensures -|windows| * PER_MILLIMETRE
            < 2 * (PER_MILLIMETRE * SumTravelled(windows) - SPEED_NUMERATOR * Sum(windows))
              + (if windows == [] then 1 else 0)
    ensures 2 * (PER_MILLIMETRE * SumTravelled(windows) - SPEED_NUMERATOR * Sum(windows)) <= |windows| * PER_MILLIMETRE
  {
    if windows != [] {
      SumStaysNear(windows[1..]);
    }
  }

  /** However a drive is cut into windows, twice the rounding error it collects is at most their number. */
  lemma {:induction false} SplitDistanceStaysNear(windows: seq<nat>)
    requires windows != []
    ensures 2 * (SumTravelled(windows) - Travelled(Sum(windows))) <= |windows|
    ensures -|windows| <= 2 * (SumTravelled(windows) - Travelled(Sum(windows)))
  {
    SumStaysNear(windows);
    RoundingIsHalfAtMost(Sum(windows));
  }

  lemma {:induction false} RoundingIsHalfAtMost(window: nat)
    ensures -PER_MILLIMETRE < 2 * (PER_MILLIMETRE * Travelled(window) - SPEED_NUMERATOR * window) <= PER_MILLIMETRE
  {
  }

  /** Windows of whole 120 ns cover whole millimetres, so cutting a drive at such moments loses nothing. */
  lemma {:induction false} WholeWindowsAreExact(windows: seq<nat>)
    requires forall i :: 0 <= i < |windows| ==> windows[i] % 120 == 0
    ensures Sum(windows) % 120 == 0
    ensures SumTravelled(windows) == Travelled(Sum(windows)) == Sum(windows) / 120
  {
    if windows != [] {
      WholeWindowsAreExact(windows[1..]);
      WholeMillimetres(windows[0] / 120);
    }
    WholeMillimetres(Sum(windows) / 120);
  }

  lemma {:induction false} WholeMillimetres(distance: nat)
    ensures Travelled(120 * distance) == distance
  {
  }

  /** The bound is met: two windows of 60 ns report a millimetre more than the 120 ns they make up. */
  lemma {:induction false} SplitDistanceCanDiffer()
    ensures SumTravelled([60, 60]) == Travelled(Sum([60, 60])) + 1
  {
    assert [60, 60][1..] == [60] && [60][1..] == [];
  }
}
