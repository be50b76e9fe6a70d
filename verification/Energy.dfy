/** One source of energy of a simulated vehicle and how a window of time is charged to it
    (backend/internal/simulation/energy.go). Every duration and moment is a count of nanoseconds. */
module Energy {
  import opened Wrappers

  /** The kinds of source a vehicle may carry (backend/internal/fleet). */
  datatype Kind = Battery | CNG | Diesel | Gasoline | LPG

  /** What a vehicle does during one window of its journey. */
  datatype Mode = Driving | Paused | Free

  const NANOSECONDS_PER_MINUTE: int := 60_000_000_000
  const DRIVING_MINUTES_PER_SOURCE: int := 60

  /** The window a driving rate is stated over: how long a whole source lasts. */
  const PERIOD: int := DRIVING_MINUTES_PER_SOURCE * NANOSECONDS_PER_MINUTE

  const PAUSED_NUMERATOR: int := 1
  const PAUSED_DENOMINATOR: int := 10

  /** This many millionths over this many nanoseconds. */
  datatype Rate = Rate(units: int, period: int)

  /** `charged` is the exact sum of what every window asked of the source, in millionths times the
      period of the rate; it never overflows because the source keeps it as an unbounded number. */
  datatype Source = Source(kind: Kind, capacity: int, charged: int) {

    /** What the state check and the stored rows demand of a source. */
    predicate Valid() {
      capacity > 0 && charged >= 0
    }

    function DrivingRate(): Rate {
      Rate(capacity, PERIOD)
    }

    function PausedRate(): Rate {
      Rate(DrivingRate().units * PAUSED_NUMERATOR, DrivingRate().period * PAUSED_DENOMINATOR)
    }

    function RateIn(mode: Mode): Rate {
      if mode == Paused then PausedRate() else DrivingRate()
    }

    function Budget(): int {
      DrivingRate().units * DrivingRate().period
    }

    predicate Exhausted() {
      charged >= Budget()
    }

    /** The whole millionths left; a quotient of nonnegative numbers, so truncation and floor agree. */
    function Remaining(): int {
      if Exhausted() then 0 else capacity - charged / PERIOD
    }

    /** How many whole nanoseconds of a window at this rate the source can be charged for. */
    function WholeNanosecondsLeft(rate: Rate): int
      requires rate.units > 0
    {
      (rate.units * rate.period - charged + (rate.units - 1)) / rate.units
    }

    /** The moment inside a window at which the source has nothing left, or the end of the window. */
    function SpentAt(rate: Rate, from: int, window: int): int {
      if rate.units <= 0 || rate.period <= 0 || Exhausted() then from + window
      else if WholeNanosecondsLeft(rate) > window then from + window
      else from + WholeNanosecondsLeft(rate)
    }

    /** The source after one stretch is charged: the units of the rate for every nanosecond. */
    function Consumed(rate: Rate, duration: int): Source {
      this.(charged := charged + rate.units * duration)
    }
  }

  /** A source as a stored reserve describes it. */
  function SourceWith(kind: Kind, capacity: int, remaining: int): Source {
    Source(kind, capacity, (capacity - remaining) * PERIOD)
  }

  // The closed form of a charge is stated a nanosecond at a time; it is the source's products and quotients
  // (`BurntIsConsumed`, `NeedIsWholeNanosecondsLeft`).

  /** The source after one nanosecond in either mode that spends it. */
  ghost function Ticked(s: Source): Source {
    s.(charged := s.charged + s.capacity)
  }

  /** The source after a stretch. */
  ghost function Burnt(s: Source, nanoseconds: nat): Source
    decreases nanoseconds
  {
    if nanoseconds == 0 then s else Burnt(Ticked(s), nanoseconds - 1)
  }

  /** How many nanoseconds exhaust the source. */
  ghost function Need(s: Source): nat
    requires s.Valid()
    decreases Max(0, s.Budget() - s.charged)
  {
    if s.Exhausted() then 0 else 1 + Need(Ticked(s))
  }

  /** The extra nanoseconds a paused window allots to a source beyond what exhausts it: the budget is
      stretched ten times while the charge per nanosecond is not. */
  function Slack(mode: Mode): nat {
    if mode == Paused then (PAUSED_DENOMINATOR - 1) * PERIOD else 0
  }

  /** A source needs what a stretch left of its need, and is empty exactly when that is nothing. */
  lemma {:induction false} NeedOfBurnt(s: Source, n: nat)
    requires s.Valid()
    ensures Burnt(s, n).Valid() && Burnt(s, n).charged >= s.charged
    ensures Burnt(s, n).kind == s.kind && Burnt(s, n).capacity == s.capacity
    ensures Need(Burnt(s, n)) == Max(0, Need(s) - n)
    ensures Burnt(s, n).Exhausted() <==> Need(s) <= n
    decreases n
  {
    if n > 0 {
      NeedOfBurnt(Ticked(s), n - 1);
    }
  }

  /** Two stretches are one stretch of the sum. */
  lemma {:induction false} BurntTwice(s: Source, a: nat, b: nat)
    ensures Burnt(Burnt(s, a), b) == Burnt(s, a + b)
    decreases a
  {
    if a > 0 {
      BurntTwice(Ticked(s), a - 1, b);
    }
  }

  lemma {:induction false} LongerBurnsMore(s: Source, a: nat, b: nat)
    requires s.Valid() && a < b
    ensures Burnt(s, a).charged < Burnt(s, b).charged
    decreases a
  {
    if a > 0 {
      LongerBurnsMore(Ticked(s), a - 1, b - 1);
    } else {
      NeedOfBurnt(Ticked(s), b - 1);
    }
  }

  /** A stretch charges the units of the source for every nanosecond of it. */
  lemma {:induction false} BurntIsConsumed(s: Source, rate: Rate, n: nat)
    requires rate.units == s.capacity
    ensures Burnt(s, n) == s.Consumed(rate, n)
    decreases n
  {
    if n > 0 {
      BurntIsConsumed(Ticked(s), rate, n - 1);
      assert s.capacity * n == s.capacity * (n - 1) + s.capacity;
    }
  }

  /** The need is the quotient the source computes at the driving rate, rounded up. */
  lemma {:induction false} NeedIsWholeNanosecondsLeft(s: Source)
    requires s.Valid() && !s.Exhausted()
    ensures Need(s) == s.WholeNanosecondsLeft(s.DrivingRate())
    ensures Need(s) <= PERIOD
    decreases Max(0, s.Budget() - s.charged)
  {
    if Ticked(s).Exhausted() {
      QuotientIsOne(s.Budget() - s.charged + (s.capacity - 1), s.capacity);
    } else {
      NeedIsWholeNanosecondsLeft(Ticked(s));
      DivideShifted(Ticked(s).Budget() - Ticked(s).charged + (s.capacity - 1), s.capacity, 1);
    }
    NeedFitsThePeriod(s);
  }

  lemma {:induction false} QuotientIsOne(x: int, d: int)
    requires 0 < d <= x < 2 * d
    ensures x / d == 1
  {
    DivideShifted(x - d, d, 1);
  }

  /** A source that was charged nothing yet lasts the period, and any other less. */
  lemma {:induction false} NeedFitsThePeriod(s: Source)
    requires s.Valid()
    ensures Need(s) <= PERIOD
  {
    BurntIsConsumed(s, s.DrivingRate(), PERIOD);
    NeedOfBurnt(s, PERIOD);
  }

  lemma {:induction false} DivideShifted(x: int, d: int, k: int)
    requires d > 0
    ensures (x + d * k) / d == x / d + k
  {
    var q := (x + d * k) / d;
    var r := (x + d * k) % d;
    assert x == d * (q - k) + r;
    QuotientIsUnique(x, d, q - k, r);
  }

  lemma {:induction false} QuotientIsUnique(x: int, d: int, q: int, r: int)
    requires d > 0 && x == d * q + r && 0 <= r < d
    ensures x / d == q
  {
    var p := x / d;
    assert d * p <= x < d * p + d;
    if p < q {
      MultiplyOrdered(d, p + 1, q);
    } else if q < p {
      MultiplyOrdered(d, q + 1, p);
    }
  }

  lemma {:induction false} MultiplyOrdered(units: int, a: int, b: int)
    requires units >= 0 && a <= b
    ensures units * a <= units * b
  {
    assert units * (b - a) >= 0;
  }

  /** A source is driven for its part of an hour: for the fewest whole nanoseconds that cover what was not charged of
      its capacity over an hour, and for none exactly when all of it was charged. */
  lemma {:induction false} NeedIsPartOfAnHour(s: Source)
    requires s.Valid()
    ensures var left := s.capacity * 3_600_000_000_000 - s.charged;
            && (Need(s) == 0 <==> left <= 0)
            && (left > 0 ==> (Need(s) - 1) * s.capacity < left <= Need(s) * s.capacity)
  {
    if !s.Exhausted() {
      NeedIsWholeNanosecondsLeft(s);
      RoundedUp(s.Budget() - s.charged, s.capacity);
    }
  }

  lemma {:induction false} RoundedUp(x: int, d: int)
    requires d > 0
    ensures ((x + (d - 1)) / d - 1) * d < x <= (x + (d - 1)) / d * d
  {
  }

  /** A reserve drives for as much of an hour as it is of the capacity, to the nanosecond; a full one for exactly an
      hour. */
  lemma {:induction false} ReserveLastsItsPartOfAnHour(kind: Kind, capacity: int, remaining: int)
    requires capacity > 0 && 0 <= remaining <= capacity
    ensures SourceWith(kind, capacity, remaining).Valid()
    ensures var need := Need(SourceWith(kind, capacity, remaining));
            && (need == 0 <==> remaining == 0)
            && (remaining > 0 ==> (need - 1) * capacity < remaining * 3_600_000_000_000 <= need * capacity)
            && (remaining == capacity ==> need == 3_600_000_000_000)
  {
    var s := SourceWith(kind, capacity, remaining);
    StoredReserveIsReported(kind, capacity, remaining);
    assert s.charged == capacity * PERIOD - remaining * PERIOD;
    NeedIsPartOfAnHour(s);
    if remaining == capacity {
      SameMultiple(capacity, Need(s), PERIOD);
    }
  }

  /** Nothing charged is a full reserve. */
  lemma {:induction false} FullLastsAnHour(s: Source)
    requires s.Valid() && s.charged == 0
    ensures Need(s) == 3_600_000_000_000
  {
    assert s == SourceWith(s.kind, s.capacity, s.capacity);
    ReserveLastsItsPartOfAnHour(s.kind, s.capacity, s.capacity);
  }

  lemma {:induction false} SameMultiple(d: int, a: int, b: int)
    requires d > 0 && (a - 1) * d < b * d <= a * d
    ensures a == b
  {
    if a < b {
      MultiplyOrdered(d, a + 1, b);
    } else if b < a {
      MultiplyOrdered(d, b, a - 1);
    }
  }

  /** What the source answers for a window is its need and the slack of the mode: nine hours while it pauses. */
  lemma {:induction false} WholeNanosecondsLeftIsAllotted(s: Source, mode: Mode)
    requires s.Valid() && !s.Exhausted()
    ensures s.WholeNanosecondsLeft(s.RateIn(mode)) == Need(s) + Slack(mode)
    ensures Slack(mode) == if mode == Paused then 9 * 3_600_000_000_000 else 0
    ensures s.RateIn(mode).units == s.capacity && s.RateIn(mode).period > 0
  {
    NeedIsWholeNanosecondsLeft(s);
    if mode == Paused {
      var left := s.Budget() - s.charged + (s.capacity - 1);
      assert s.capacity * (10 * PERIOD) - s.charged + (s.capacity - 1) == left + s.capacity * (9 * PERIOD);
      DivideShifted(left, s.capacity, 9 * PERIOD);
    }
  }

  /** A source that has run out reports nothing and one that has not always reports something, at most
      what it holds when full. */
  lemma {:induction false} RemainingIsPositiveUntilExhausted(s: Source)
    requires s.Valid()
    ensures s.Remaining() > 0 <==> !s.Exhausted()
    ensures 0 <= s.Remaining() <= s.capacity
  {
    if !s.Exhausted() {
      var whole := s.charged / PERIOD;
      assert s.charged == whole * PERIOD + s.charged % PERIOD;
      assert (s.capacity - whole) * PERIOD > 0;
    }
  }

  /** A reserve taken from storage is the reserve the source reports. */
  lemma {:induction false} StoredReserveIsReported(kind: Kind, capacity: int, remaining: int)
    requires capacity > 0 && 0 <= remaining <= capacity
    ensures SourceWith(kind, capacity, remaining).Valid()
    ensures SourceWith(kind, capacity, remaining).Remaining() == remaining
  {
    assert (capacity - remaining) * PERIOD / PERIOD == capacity - remaining;
  }
}
