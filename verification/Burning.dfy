/** What a window of time takes out of an ordered list of sources: the closed form the looped code of
    backend/internal/simulation/model.go refines, and what happens when a window is cut in two. */
module Burning {
  import opened Wrappers
  import opened Energy
  import opened Shares

  predicate ValidSources(ss: seq<Source>) {
    forall i :: 0 <= i < |ss| ==> ss[i].Valid()
  }

  predicate AllExhausted(ss: seq<Source>) {
    forall i :: 0 <= i < |ss| ==> ss[i].Exhausted()
  }

  ghost function Needs(ss: seq<Source>): (needs: seq<nat>)
    requires ValidSources(ss)
    ensures |needs| == |ss|
    ensures forall i :: 0 <= i < |ss| ==> needs[i] == Need(ss[i])
  {
    seq(|ss|, i requires 0 <= i < |ss| => Need(ss[i]))
  }

  ghost function BurntBy(ss: seq<Source>, shares: seq<nat>): (after: seq<Source>)
    requires |shares| == |ss|
    ensures |after| == |ss|
    ensures forall i :: 0 <= i < |ss| ==> after[i] == Burnt(ss[i], shares[i])
  {
    seq(|ss|, i requires 0 <= i < |ss| => Burnt(ss[i], shares[i]))
  }

  /** The sources after a window of `w` nanoseconds: each charged its share of it. */
  ghost function Charge(ss: seq<Source>, mode: Mode, w: nat): (after: seq<Source>)
    requires ValidSources(ss)
    ensures |after| == |ss|
  {
    BurntBy(ss, SharesOf(Needs(ss), Slack(mode), w))
  }

  /** How long the sources can be charged for before none is left. */
  ghost function AllotmentOf(ss: seq<Source>, mode: Mode): nat
    requires ValidSources(ss)
  {
    Allotment(Needs(ss), Slack(mode))
  }

  /** The kinds used up between two readings of the same sources, in the order they are carried. */
  ghost function UsedUp(before: seq<Source>, after: seq<Source>): seq<Kind>
    requires |before| == |after|
  {
    if before == [] then [] else UsedUpOne(before[0], after[0]) + UsedUp(before[1..], after[1..])
  }

  ghost function UsedUpOne(before: Source, after: Source): seq<Kind> {
    if !before.Exhausted() && after.Exhausted() then [before.kind] else []
  }

  lemma {:induction false} NeedsOfBurntAt(ss: seq<Source>, shares: seq<nat>, i: nat)
    requires ValidSources(ss) && |shares| == |ss| && i < |ss|
    ensures Burnt(ss[i], shares[i]).Valid()
    ensures Burnt(ss[i], shares[i]).kind == ss[i].kind
    ensures Need(Burnt(ss[i], shares[i])) == LeftOf(Needs(ss), shares)[i]
  {
    NeedOfBurnt(ss[i], shares[i]);
    LeftAt(Needs(ss), shares, i);
  }

  lemma {:induction false} NeedsOfBurnt(ss: seq<Source>, shares: seq<nat>)
    requires ValidSources(ss) && |shares| == |ss|
    ensures ValidSources(BurntBy(ss, shares))
    ensures forall i :: 0 <= i < |ss| ==> BurntBy(ss, shares)[i].kind == ss[i].kind
    ensures Needs(BurntBy(ss, shares)) == LeftOf(Needs(ss), shares)
  {
    forall i | 0 <= i < |ss|
      ensures BurntBy(ss, shares)[i].Valid() && BurntBy(ss, shares)[i].kind == ss[i].kind
      ensures Need(BurntBy(ss, shares)[i]) == LeftOf(Needs(ss), shares)[i]
    {
      NeedsOfBurntAt(ss, shares, i);
    }
  }

  lemma {:induction false} LeftAt(needs: seq<nat>, shares: seq<nat>, i: nat)
    requires |needs| == |shares| && i < |needs|
    ensures LeftOf(needs, shares)[i] == Left(needs[i], shares[i])
  {
    if i > 0 {
      LeftAt(needs[1..], shares[1..], i - 1);
    }
  }

  lemma {:induction false} AddedAt(a: seq<nat>, b: seq<nat>, i: nat)
    requires |a| == |b| && i < |a|
    ensures Added(a, b)[i] == a[i] + b[i]
  {
    if i > 0 {
      AddedAt(a[1..], b[1..], i - 1);
    }
  }

  lemma {:induction false} NoneLeftIsAllExhausted(ss: seq<Source>)
    requires ValidSources(ss)
    ensures NoneLeft(Needs(ss)) <==> AllExhausted(ss)
  {
    forall i | 0 <= i < |ss|
      ensures Needs(ss)[i] == 0 <==> ss[i].Exhausted()
    {
    }
  }

  lemma {:induction false} BurntByTwice(ss: seq<Source>, a: seq<nat>, b: seq<nat>)
    requires |ss| == |a| == |b|
    ensures BurntBy(BurntBy(ss, a), b) == BurntBy(ss, Added(a, b))
  {
    forall i | 0 <= i < |ss|
      ensures Burnt(Burnt(ss[i], a[i]), b[i]) == Burnt(ss[i], Added(a, b)[i])
    {
      BurntTwice(ss[i], a[i], b[i]);
      AddedAt(a, b, i);
    }
  }

  lemma {:induction false} BurntByDiffers(ss: seq<Source>, a: seq<nat>, b: seq<nat>)
    requires ValidSources(ss) && |ss| == |a| == |b| && BurntBy(ss, a) == BurntBy(ss, b)
    ensures a == b
  {
    forall i | 0 <= i < |ss|
      ensures a[i] == b[i]
    {
      assert BurntBy(ss, a)[i] == BurntBy(ss, b)[i];
      if a[i] < b[i] {
        LongerBurnsMore(ss[i], a[i], b[i]);
      } else if b[i] < a[i] {
        LongerBurnsMore(ss[i], b[i], a[i]);
      }
    }
  }

  // ---------- the closed form ----------

  /** Every source is charged exactly its units for its share of the window, and the shares add up to the
      part of the window the sources could cover. */
  lemma {:induction false} ChargesPartitionTheWindow(ss: seq<Source>, mode: Mode, w: nat)
    requires ValidSources(ss)
    ensures var shares := SharesOf(Needs(ss), Slack(mode), w);
            && Sum(shares) == Min(w, AllotmentOf(ss, mode))
            && (forall i :: 0 <= i < |ss| ==>
                  Charge(ss, mode, w)[i] == ss[i].(charged := ss[i].charged + ss[i].capacity * shares[i]))
    ensures ValidSources(Charge(ss, mode, w))
  {
    var shares := SharesOf(Needs(ss), Slack(mode), w);
    SharesPartition(Needs(ss), Slack(mode), w);
    NeedsOfBurnt(ss, shares);
    forall i | 0 <= i < |ss|
      ensures Charge(ss, mode, w)[i] == ss[i].(charged := ss[i].charged + ss[i].capacity * shares[i])
    {
      BurntIsConsumed(ss[i], ss[i].DrivingRate(), shares[i]);
    }
  }

  lemma {:induction false} NothingInNoTime(ss: seq<Source>, mode: Mode)
    requires ValidSources(ss)
    ensures Charge(ss, mode, 0) == ss
  {
    NoTimeNoShare(Needs(ss), Slack(mode));
  }

  /** A window of driving leaves nothing exactly when it covers the sum of the needs. */
  lemma {:induction false} DrivingExhaustsAtTheSum(ss: seq<Source>, w: nat)
    requires ValidSources(ss)
    ensures AllExhausted(Charge(ss, Driving, w)) <==> Sum(Needs(ss)) <= w
    ensures AllotmentOf(ss, Driving) == Sum(Needs(ss))
  {
    DrivingCutsAreSafe(Needs(ss), w);
    AfterSafeCut(ss, Driving, w);
    DrivingAllotsTheNeeds(Needs(ss));
  }

  /** Sources that are full need an hour each. */
  lemma {:induction false} FullSourcesNeedAnHourEach(ss: seq<Source>)
    requires ValidSources(ss) && forall i :: 0 <= i < |ss| ==> ss[i].charged == 0
    ensures Sum(Needs(ss)) == |ss| * 3_600_000_000_000
  {
    if ss != [] {
      FullLastsAnHour(ss[0]);
      FullSourcesNeedAnHourEach(ss[1..]);
      assert Needs(ss)[1..] == Needs(ss[1..]);
    }
  }

  lemma {:induction false} DrivingAllotsTheNeeds(needs: seq<nat>)
    ensures Allotment(needs, 0) == Sum(needs)
  {
    if needs != [] {
      DrivingAllotsTheNeeds(needs[1..]);
    }
  }

  // ---------- cutting a window in two ----------

  ghost predicate SafeCutOf(ss: seq<Source>, mode: Mode, w: int)
    requires ValidSources(ss)
  {
    SafeCut(Needs(ss), Slack(mode), w)
  }

  /** What is charged agrees, whether a window is played in one piece or in two, exactly at the safe cuts. */
  lemma {:induction false} CutChargesAgreeExactlyWhenSafe(ss: seq<Source>, mode: Mode, w1: nat, w2: nat)
    requires ValidSources(ss) && w2 > 0
    ensures ValidSources(Charge(ss, mode, w1))
    ensures Charge(Charge(ss, mode, w1), mode, w2) == Charge(ss, mode, w1 + w2) <==> SafeCutOf(ss, mode, w1)
  {
    var needs, slack := Needs(ss), Slack(mode);
    var first := SharesOf(needs, slack, w1);
    NeedsOfBurnt(ss, first);
    var second := SharesOf(LeftOf(needs, first), slack, w2);
    BurntByTwice(ss, first, second);
    CutAgreesExactlyWhenSafe(needs, slack, w1, w2);
    var twice, whole := Added(first, second), SharesOf(needs, slack, w1 + w2);
    if BurntBy(ss, twice) == BurntBy(ss, whole) {
      BurntByDiffers(ss, twice, whole);
    }
  }

  lemma {:induction false} AfterSafeCut(ss: seq<Source>, mode: Mode, w: nat)
    requires ValidSources(ss) && SafeCutOf(ss, mode, w)
    ensures ValidSources(Charge(ss, mode, w))
    ensures AllotmentOf(Charge(ss, mode, w), mode) == Max(0, AllotmentOf(ss, mode) - w)
    ensures AllExhausted(Charge(ss, mode, w)) <==> AllotmentOf(ss, mode) <= w
  {
    NeedsOfBurnt(ss, SharesOf(Needs(ss), Slack(mode), w));
    AllotmentAfterSafeCut(Needs(ss), Slack(mode), w);
    NoneLeftIsAllExhausted(Charge(ss, mode, w));
  }

  lemma {:induction false} DrivingCutsAreSafeOf(ss: seq<Source>, w: int)
    requires ValidSources(ss)
    ensures SafeCutOf(ss, Driving, w)
  {
    DrivingCutsAreSafe(Needs(ss), w);
  }

  lemma {:induction false} NothingUsedUp(ss: seq<Source>)
    ensures UsedUp(ss, ss) == []
  {
    if ss != [] {
      NothingUsedUp(ss[1..]);
    }
  }

  lemma {:induction false} UsedUpOfParts(a: seq<Source>, b: seq<Source>, c: seq<Source>, d: seq<Source>)
    requires |a| == |c| && |b| == |d|
    ensures UsedUp(a + b, c + d) == UsedUp(a, c) + UsedUp(b, d)
  {
    if a == [] {
      assert a + b == b && c + d == d;
    } else {
      assert (a + b)[1..] == a[1..] + b && (c + d)[1..] == c[1..] + d;
      UsedUpOfParts(a[1..], b, c[1..], d);
    }
  }

  /** Updating one source behind an untouched list adds its kind, if it was used up, at the end. */
  lemma {:induction false} UsedUpByAnUpdate(before: seq<Source>, now: seq<Source>, p: nat, x: Source)
    requires |before| == |now| && p < |now| && before[p..] == now[p..]
    ensures UsedUp(before, now[p := x]) == UsedUp(before, now) + UsedUpOne(now[p], x)
  {
    var head, rest := before[..p], before[p + 1..];
    var tail := [before[p]] + rest;
    assert tail == before[p..];
    assert before == head + tail && now == now[..p] + tail && now[p := x] == now[..p] + ([x] + rest);
    UsedUpOfParts(head, tail, now[..p], tail);
    UsedUpOfParts(head, tail, now[..p], [x] + rest);
    NothingUsedUp(tail);
    NothingUsedUp(rest);
    assert before[p] == now[p];
    assert tail[1..] == rest && ([x] + rest)[1..] == rest;
  }

  /** The same list in terms of the needs alone. */
  ghost function Emptied(ss: seq<Source>, needs: seq<nat>, left: seq<nat>): seq<Kind>
    requires |ss| == |needs| == |left|
  {
    if ss == [] then [] else EmptiedOne(ss[0], needs[0], left[0]) + Emptied(ss[1..], needs[1..], left[1..])
  }

  ghost function EmptiedOne(s: Source, need: nat, left: nat): seq<Kind> {
    if need > 0 && left == 0 then [s.kind] else []
  }

  lemma {:induction false} UsedUpIsEmptied(ss: seq<Source>, before: seq<Source>, after: seq<Source>)
    requires |ss| == |before| == |after| && ValidSources(before) && ValidSources(after)
    requires forall i :: 0 <= i < |ss| ==> ss[i].kind == before[i].kind
    ensures UsedUp(before, after) == Emptied(ss, Needs(before), Needs(after))
  {
    if ss != [] {
      UsedUpIsEmptied(ss[1..], before[1..], after[1..]);
      assert Needs(before)[1..] == Needs(before[1..]) && Needs(after)[1..] == Needs(after[1..]);
    }
  }

  lemma {:induction false} NothingEmptied(ss: seq<Source>, needs: seq<nat>)
    requires |ss| == |needs|
    ensures Emptied(ss, needs, needs) == []
  {
    if ss != [] {
      NothingEmptied(ss[1..], needs[1..]);
    }
  }

  /** Across a safe cut what the two parts used up is listed in the order the whole window lists it. */
  lemma {:induction false} EmptiedAcrossSafeCut(ss: seq<Source>, needs: seq<nat>, slack: nat, w1: nat, w2: nat)
    requires |ss| == |needs| && SafeCut(needs, slack, w1)
    ensures var mid := LeftOf(needs, SharesOf(needs, slack, w1));
            var end := LeftOf(mid, SharesOf(mid, slack, w2));
            Emptied(ss, needs, mid) + Emptied(ss, mid, end) == Emptied(ss, needs, end)
  {
    if ss != [] {
      var mid := LeftOf(needs, SharesOf(needs, slack, w1));
      var end := LeftOf(mid, SharesOf(mid, slack, w2));
      if w1 < needs[0] {
        NoTimeNoShare(needs[1..], slack);
        NothingEmptied(ss[1..], needs[1..]);
      } else {
        EmptiedAcrossSafeCut(ss[1..], needs[1..], slack, w1 - Allotted(needs[0], slack), w2);
      }
      ConcatenatedInOrder(
        EmptiedOne(ss[0], needs[0], mid[0]), Emptied(ss[1..], needs[1..], mid[1..]),
        EmptiedOne(ss[0], mid[0], end[0]), Emptied(ss[1..], mid[1..], end[1..]));
    }
  }

  lemma {:induction false} ConcatenatedInOrder<T>(x: seq<T>, p: seq<T>, y: seq<T>, q: seq<T>)
    requires p == [] || y == []
    ensures (x + p) + (y + q) == (x + y) + (p + q)
  {
  }

  lemma {:induction false} UsedUpAcrossSafeCut(ss: seq<Source>, mode: Mode, w1: nat, w2: nat)
    requires ValidSources(ss) && w2 > 0 && SafeCutOf(ss, mode, w1)
    ensures ValidSources(Charge(ss, mode, w1))
    ensures var mid := Charge(ss, mode, w1);
            UsedUp(ss, mid) + UsedUp(mid, Charge(mid, mode, w2)) == UsedUp(ss, Charge(ss, mode, w1 + w2))
  {
    var needs, slack := Needs(ss), Slack(mode);
    var first := SharesOf(needs, slack, w1);
    NeedsOfBurnt(ss, first);
    var mid := Charge(ss, mode, w1);
    var second := SharesOf(Needs(mid), slack, w2);
    NeedsOfBurnt(mid, second);
    CutChargesAgreeExactlyWhenSafe(ss, mode, w1, w2);
    EmptiedAcrossSafeCut(ss, needs, slack, w1, w2);
    UsedUpIsEmptied(ss, ss, mid);
    UsedUpIsEmptied(ss, mid, Charge(mid, mode, w2));
    UsedUpIsEmptied(ss, ss, Charge(ss, mode, w1 + w2));
  }

  // ---------- what a paused window costs ----------

  /** While the source in use lasts, a paused window charges exactly what the same window of driving
      charges: the stretched period bounds the window and never the charge. */
  lemma {:induction false} PausedSharesAreDrivingShares(needs: seq<nat>, w: nat)
    requires w <= FirstNeed(needs) || FirstNeed(needs) == 0
    ensures SharesOf(needs, Slack(Paused), w) == SharesOf(needs, Slack(Driving), w)
  {
    if needs != [] {
      if needs[0] == 0 {
        PausedSharesAreDrivingShares(needs[1..], w);
      } else {
        EmptyRest(needs[1..]);
      }
    }
  }

  lemma {:induction false} EmptyRest(needs: seq<nat>)
    ensures SharesOf(needs, Slack(Paused), 0) == SharesOf(needs, Slack(Driving), 0)
  {
    NoTimeNoShare(needs, Slack(Paused));
    NoTimeNoShare(needs, Slack(Driving));
  }

  /** How long the source in use can be driven on. */
  ghost function NeedInUse(ss: seq<Source>): nat
    requires ValidSources(ss)
  {
    FirstNeed(Needs(ss))
  }

  lemma {:induction false} PausedCostsWhatDrivingCosts(ss: seq<Source>, w: nat)
    requires ValidSources(ss) && (w <= NeedInUse(ss) || NeedInUse(ss) == 0)
    ensures Charge(ss, Paused, w) == Charge(ss, Driving, w)
  {
    PausedSharesAreDrivingShares(Needs(ss), w);
  }

  lemma {:induction false} NeedInUseShrinks(ss: seq<Source>, w: nat)
    requires ValidSources(ss) && w < NeedInUse(ss)
    ensures ValidSources(Charge(ss, Driving, w))
    ensures NeedInUse(Charge(ss, Driving, w)) == NeedInUse(ss) - w
  {
    NeedsOfBurnt(ss, SharesOf(Needs(ss), Slack(Driving), w));
    FirstNeedShrinks(Needs(ss), w);
  }

  /** The comment beside the rates promises a tenth of driving. A source that covers the window is charged
      that only by a window of no time at all. */
  lemma {:induction false} PausedIsATenthOnlyInNoTime(s: Source, w: nat)
    requires s.Valid() && !s.Exhausted() && w <= Allotted(Need(s), Slack(Paused))
    ensures var charge := Charge([s], Paused, w)[0].charged - s.charged;
            (PAUSED_DENOMINATOR * charge == PAUSED_NUMERATOR * (s.DrivingRate().units * w)) <==> (w == 0)
  {
    assert Needs([s]) == [Need(s)];
    BurntIsConsumed(s, s.DrivingRate(), w);
    assert Charge([s], Paused, w)[0].charged - s.charged == s.capacity * w;
    if w > 0 {
      MultiplyOrdered(s.capacity, 1, w);
    }
  }

  /** Two reserves of one nanosecond each and a pause of two: read at its end, the pause empties the battery
      alone; read in its middle as well, it empties the tank too. */
  lemma {:induction false} PausedWindowsDependOnTheirCuts()
    ensures var ss := [Source(Battery, 1, PERIOD - 1), Source(Gasoline, 1, PERIOD - 1)];
            && ValidSources(ss) && ValidSources(Charge(ss, Paused, 1))
            && !AllExhausted(Charge(ss, Paused, 2))
            && AllExhausted(Charge(Charge(ss, Paused, 1), Paused, 1))
  {
    var ss := [Source(Battery, 1, PERIOD - 1), Source(Gasoline, 1, PERIOD - 1)];
    assert Need(Ticked(ss[0])) == 0 && Need(Ticked(ss[1])) == 0;
    assert Needs(ss) == [1, 1];
    assert [1, 1][1..] == [1] && [1][1..] == [];
    assert SharesOf([1, 1], Slack(Paused), 2) == [2, 0];
    assert !Charge(ss, Paused, 2)[1].Exhausted();
    assert SharesOf([1, 1], Slack(Paused), 1) == [1, 0];
    var mid := Charge(ss, Paused, 1);
    assert mid == [Source(Battery, 1, PERIOD), ss[1]];
    assert Needs(mid) == [0, 1];
    assert [0, 1][1..] == [1];
    assert SharesOf([0, 1], Slack(Paused), 1) == [0, 1];
  }
}
