/** One window of time taken out of a list of sources: in closed form, a stretch at a time as the loop of
    backend/internal/simulation/model.go plays it, and cut in two. */
module Windows {
  import opened Wrappers
  import opened Energy
  import opened Shares
  import opened Burning

  predicate Spends(mode: Mode) {
    mode == Driving || mode == Paused
  }

  /** What burning leaves: the sources, what was used up in order, the time charged while moving and the
      moment the vehicle ran out. */
  datatype Burned = Burned(sources: seq<Source>, exhausted: seq<Kind>, inMotion: nat, ranOut: Option<int>)

  /** What was burned before, and then the rest. */
  ghost function Continued(exhausted: seq<Kind>, inMotion: nat, rest: Burned): Burned {
    Burned(rest.sources, exhausted + rest.exhausted, inMotion + rest.inMotion, rest.ranOut)
  }

  /** What was burned first, and then, unless the vehicle ran out, the rest. */
  ghost function Then(first: Burned, rest: Burned): Burned {
    if first.ranOut.Some? then first else Continued(first.exhausted, first.inMotion, rest)
  }

  lemma {:induction false} ThenInOrder(a: Burned, b: Burned, c: Burned)
    ensures Then(Then(a, b), c) == Then(a, Then(b, c))
  {
    ContinuedTwice(a.exhausted, a.inMotion, b.exhausted, b.inMotion, c);
  }

  lemma {:induction false} ContinuedTwice(a: seq<Kind>, m: nat, b: seq<Kind>, n: nat, rest: Burned)
    ensures Continued(a, m, Continued(b, n, rest)) == Continued(a + b, m + n, rest)
  {
    assert a + (b + rest.exhausted) == (a + b) + rest.exhausted;
  }

  /** One window of `w` nanoseconds, in closed form: the vehicle runs out in it when it leaves every source
      empty, at the moment its allotment ends or the window does. */
  ghost function ConsumedFor(ss: seq<Source>, mode: Mode, from: int, w: nat): (b: Burned)
    requires ValidSources(ss)
    ensures ValidSources(b.sources) && |b.sources| == |ss|
  {
    var after := Charge(ss, mode, w);
    var covered := Min(w, AllotmentOf(ss, mode));
    NeedsOfBurnt(ss, SharesOf(Needs(ss), Slack(mode), w));
    Burned(after, UsedUp(ss, after), covered, if w > 0 && AllExhausted(after) then Some(from + covered) else None)
  }

  // ---------- the source in use ----------

  /** The source in use is the first that holds something; past the end when none does. */
  ghost predicate IsInUse(ss: seq<Source>, p: nat) {
    && p <= |ss|
    && (forall i :: 0 <= i < p ==> ss[i].Remaining() <= 0)
    && (p < |ss| ==> ss[p].Remaining() > 0)
  }

  ghost predicate NoneInUse(ss: seq<Source>) {
    forall i :: 0 <= i < |ss| ==> ss[i].Remaining() <= 0
  }

  ghost function RanOut(ss: seq<Source>, moment: int): Option<int> {
    if NoneInUse(ss) then Some(moment) else None
  }

  ghost function InUseAt(ss: seq<Source>): (p: nat)
    ensures IsInUse(ss, p)
  {
    SomeIsInUse(ss);
    var p: nat :| IsInUse(ss, p);
    p
  }

  lemma {:induction false} SomeIsInUse(ss: seq<Source>)
    ensures exists p: nat :: IsInUse(ss, p)
  {
    var p := 0;
    while p < |ss| && ss[p].Remaining() <= 0
      invariant p <= |ss| && forall i :: 0 <= i < p ==> ss[i].Remaining() <= 0
    {
      p := p + 1;
    }
    assert IsInUse(ss, p);
  }

  lemma {:induction false} InUseAtIs(ss: seq<Source>, p: nat)
    requires IsInUse(ss, p)
    ensures InUseAt(ss) == p
  {
    var q := InUseAt(ss);
  }

  /** Emptying the source in use moves on to a later one. */
  lemma {:induction false} InUseMovesOn(ss: seq<Source>, p: nat, x: Source)
    requires p < |ss| && InUseAt(ss) == p && x.Remaining() <= 0
    ensures p < InUseAt(ss[p := x]) <= |ss|
  {
    var q := InUseAt(ss[p := x]);
    assert q == |ss| || ss[p := x][q].Remaining() > 0;
  }

  lemma {:induction false} AllExhaustedIsNoneInUse(ss: seq<Source>)
    requires ValidSources(ss)
    ensures AllExhausted(ss) <==> NoneInUse(ss)
  {
    forall i | 0 <= i < |ss|
      ensures ss[i].Remaining() > 0 <==> !ss[i].Exhausted()
    {
      RemainingIsPositiveUntilExhausted(ss[i]);
    }
  }

  // ---------- a window a stretch at a time ----------

  /** How long the source in use is charged for: its allotment, or the window. */
  ghost function ShareIn(s: Source, mode: Mode, w: nat): (share: nat)
    requires s.Valid()
    ensures share <= w
  {
    Share(Need(s), Slack(mode), w)
  }

  /** The source after the stretch it is in use for. */
  ghost function Stretched(s: Source, mode: Mode, w: nat): (x: Source)
    requires s.Valid()
    ensures x.Valid() && x.kind == s.kind
  {
    NeedOfBurnt(s, ShareIn(s, mode, w));
    Burnt(s, ShareIn(s, mode, w))
  }

  ghost function UsedBy(s: Source, x: Source): seq<Kind> {
    if x.Remaining() > 0 then [] else [s.kind]
  }

  /** The window played a stretch at a time, as the loop plays it. */
  ghost function Stretches(ss: seq<Source>, mode: Mode, from: int, w: nat): Burned
    requires ValidSources(ss)
    decreases |ss| - InUseAt(ss)
  {
    var p := InUseAt(ss);
    if w == 0 then Burned(ss, [], 0, None)
    else if p == |ss| then Burned(ss, [], 0, Some(from))
    else
      var share, x := ShareIn(ss[p], mode, w), Stretched(ss[p], mode, w);
      if share == w then
        Burned(ss[p := x], UsedBy(ss[p], x), share, RanOut(ss[p := x], from + w))
      else
        StretchIsSpent(ss[p], mode, w);
        InUseMovesOn(ss, p, x);
        Continued(UsedBy(ss[p], x), share, Stretches(ss[p := x], mode, from + share, w - share))
  }

  /** A stretch shorter than the window empties the source. */
  lemma {:induction false} StretchIsSpent(s: Source, mode: Mode, w: nat)
    requires s.Valid() && s.Remaining() > 0 && w > 0
    ensures ShareIn(s, mode, w) > 0
    ensures ShareIn(s, mode, w) < w ==> Stretched(s, mode, w).Remaining() <= 0
  {
    NeedOfBurnt(s, ShareIn(s, mode, w));
    RemainingIsPositiveUntilExhausted(s);
    RemainingIsPositiveUntilExhausted(Stretched(s, mode, w));
  }

  /** What one pass of the loop computes: the moment the source in use is spent, and its charge. */
  lemma {:induction false} StretchOfSource(s: Source, mode: Mode, from: int, w: nat)
    requires s.Valid() && s.Remaining() > 0 && w > 0
    ensures s.SpentAt(s.RateIn(mode), from, w) == from + ShareIn(s, mode, w)
    ensures s.Consumed(s.RateIn(mode), ShareIn(s, mode, w)) == Stretched(s, mode, w)
  {
    RemainingIsPositiveUntilExhausted(s);
    WholeNanosecondsLeftIsAllotted(s, mode);
    BurntIsConsumed(s, s.RateIn(mode), ShareIn(s, mode, w));
  }

  /** Playing a window a stretch at a time is the closed form: every stretch ends at a safe cut. */
  lemma {:induction false} StretchesAreTheClosedForm(ss: seq<Source>, mode: Mode, from: int, w: nat)
    requires ValidSources(ss)
    ensures Stretches(ss, mode, from, w) == ConsumedFor(ss, mode, from, w)
    decreases |ss| - InUseAt(ss)
  {
    var p := InUseAt(ss);
    if w > 0 && p < |ss| && ShareIn(ss[p], mode, w) < w {
      var share, x := ShareIn(ss[p], mode, w), Stretched(ss[p], mode, w);
      StretchIsSpent(ss[p], mode, w);
      InUseMovesOn(ss, p, x);
      StretchesAreTheClosedForm(ss[p := x], mode, from + share, w - share);
      BothGoOn(ss, mode, from, w, p, share, x);
    } else {
      LastStretch(ss, mode, from, w);
    }
  }

  lemma {:induction false} BothGoOn(ss: seq<Source>, mode: Mode, from: int, w: nat, p: nat, share: nat, x: Source)
    requires ValidSources(ss) && InUseAt(ss) == p < |ss| && x.Valid()
    requires share == ShareIn(ss[p], mode, w) < w && x == Stretched(ss[p], mode, w)
    requires Stretches(ss[p := x], mode, from + share, w - share) ==
             ConsumedFor(ss[p := x], mode, from + share, w - share)
    ensures Stretches(ss, mode, from, w) == ConsumedFor(ss, mode, from, w)
  {
    StretchesGoOn(ss, mode, from, w, p, share, x);
    ClosedFormGoesOn(ss, mode, from, w, p, share, x);
  }

  lemma {:induction false} LastStretch(ss: seq<Source>, mode: Mode, from: int, w: nat)
    requires ValidSources(ss)
    requires w > 0 && InUseAt(ss) < |ss| ==> ShareIn(ss[InUseAt(ss)], mode, w) == w
    ensures Stretches(ss, mode, from, w) == ConsumedFor(ss, mode, from, w)
  {
    var p := InUseAt(ss);
    if w == 0 {
      NothingUsedUp(ss);
      NothingInNoTime(ss, mode);
    } else if p == |ss| {
      NothingConsumed(ss, mode, from, w);
    } else {
      StretchIsItsCharge(ss, mode, from, w, p);
    }
  }

  lemma {:induction false} StretchesGoOn(ss: seq<Source>, mode: Mode, from: int, w: nat, p: nat, share: nat, x: Source)
    requires ValidSources(ss) && InUseAt(ss) == p < |ss| && x.Valid()
    requires share == ShareIn(ss[p], mode, w) < w && x == Stretched(ss[p], mode, w)
    ensures x.Remaining() <= 0 && p < InUseAt(ss[p := x]) <= |ss|
    ensures Stretches(ss, mode, from, w) ==
            Continued(UsedBy(ss[p], x), share, Stretches(ss[p := x], mode, from + share, w - share))
  {
    StretchIsSpent(ss[p], mode, w);
    InUseMovesOn(ss, p, x);
  }

  lemma {:induction false} StretchesStop(ss: seq<Source>, mode: Mode, from: int, w: nat)
    requires ValidSources(ss) && InUseAt(ss) == |ss| && w > 0
    ensures Stretches(ss, mode, from, w) == Burned(ss, [], 0, Some(from))
  {
  }

  lemma {:induction false} StretchesEnd(ss: seq<Source>, mode: Mode, from: int, w: nat, p: nat, x: Source)
    requires ValidSources(ss) && InUseAt(ss) == p < |ss| && w > 0
    requires ShareIn(ss[p], mode, w) == w && x == Stretched(ss[p], mode, w)
    ensures Stretches(ss, mode, from, w) == Burned(ss[p := x], UsedBy(ss[p], x), w, RanOut(ss[p := x], from + w))
    ensures x.Remaining() > 0 ==> RanOut(ss[p := x], from + w) == None
  {
    assert ss[p := x][p] == x;
  }

  lemma {:induction false} ClosedFormGoesOn(ss: seq<Source>, mode: Mode, from: int, w: nat, p: nat, share: nat,
                                            x: Source)
    requires ValidSources(ss) && InUseAt(ss) == p < |ss| && x.Valid()
    requires share == ShareIn(ss[p], mode, w) < w && x == Stretched(ss[p], mode, w)
    ensures ConsumedFor(ss, mode, from, w) ==
            Continued(UsedBy(ss[p], x), share, ConsumedFor(ss[p := x], mode, from + share, w - share))
  {
    StretchIsItsCharge(ss, mode, from, w, p);
    WholeGoesOn(ss, mode, from, share, w, ss[p := x], UsedBy(ss[p], x));
  }

  /** A window whose first part ends where it may be cut: the rest continues what that part left. */
  lemma {:induction false} WholeGoesOn(ss: seq<Source>, mode: Mode, from: int, w1: nat, w: nat, after: seq<Source>,
                                       used: seq<Kind>)
    requires ValidSources(ss) && ValidSources(after) && 0 < w1 < w && SafeCutOf(ss, mode, w1)
    requires ConsumedFor(ss, mode, from, w1) == Burned(after, used, w1, RanOut(after, from + w1))
    ensures ConsumedFor(ss, mode, from, w) == Continued(used, w1, ConsumedFor(after, mode, from + w1, w - w1))
  {
    if NoneInUse(after) {
      WholeRunsOutEarly(ss, mode, from, w1, w - w1);
      NothingConsumed(after, mode, from + w1, w - w1);
      assert Continued(used, w1, Burned(after, [], 0, Some(from + w1))) == Burned(after, used, w1, Some(from + w1));
    } else {
      CutContinues(ss, mode, from, w1, w - w1);
    }
  }

  lemma {:induction false} WholeRunsOutEarly(ss: seq<Source>, mode: Mode, from: int, w1: nat, w2: nat)
    requires ValidSources(ss) && w1 > 0 && w2 > 0 && SafeCutOf(ss, mode, w1)
    requires ConsumedFor(ss, mode, from, w1).ranOut.Some?
    ensures ConsumedFor(ss, mode, from, w1 + w2) == ConsumedFor(ss, mode, from, w1)
  {
    SafeCutAgrees(ss, mode, from, w1, w2);
  }

  lemma {:induction false} NothingConsumed(ss: seq<Source>, mode: Mode, from: int, w: nat)
    requires ValidSources(ss) && NoneInUse(ss) && w > 0
    ensures ConsumedFor(ss, mode, from, w) == Burned(ss, [], 0, Some(from))
  {
    AllExhaustedIsNoneInUse(ss);
    NoneLeftIsAllExhausted(ss);
    NoneLeftNoAllotment(Needs(ss), Slack(mode), w);
    NothingUsedUp(ss);
    assert Charge(ss, mode, w) == ss;
  }

  /** A stretch of the window charges the source in use alone, and the window may be cut at its end. */
  lemma {:induction false} StretchIsItsCharge(ss: seq<Source>, mode: Mode, from: int, w: nat, p: nat)
    requires ValidSources(ss) && InUseAt(ss) == p < |ss| && w > 0
    ensures var share, x := ShareIn(ss[p], mode, w), Stretched(ss[p], mode, w);
            && share > 0
            && ConsumedFor(ss, mode, from, share) ==
               Burned(ss[p := x], UsedBy(ss[p], x), share, RanOut(ss[p := x], from + share))
            && (share < w ==> SafeCutOf(ss, mode, share))
  {
    var share, x := ShareIn(ss[p], mode, w), Stretched(ss[p], mode, w);
    StretchIsSpent(ss[p], mode, w);
    StretchOfNeeds(ss, mode, share, p);
    ChargeOfOne(ss, SharesOf(Needs(ss), Slack(mode), share), p, share);
    UsedUpByOne(ss, p, x);
    AllExhaustedIsNoneInUse(ss[p := x]);
  }

  lemma {:induction false} StretchOfNeeds(ss: seq<Source>, mode: Mode, share: nat, p: nat)
    requires ValidSources(ss) && InUseAt(ss) == p < |ss| && share <= Allotted(Need(ss[p]), Slack(mode))
    ensures forall i :: 0 <= i < |ss| ==> SharesOf(Needs(ss), Slack(mode), share)[i] == if i == p then share else 0
    ensures share == Allotted(Need(ss[p]), Slack(mode)) ==> SafeCutOf(ss, mode, share)
    ensures share <= AllotmentOf(ss, mode)
  {
    forall i | 0 <= i < |ss|
      ensures ss[i].Remaining() > 0 <==> Need(ss[i]) > 0
    {
      RemainingIsPositiveUntilExhausted(ss[i]);
    }
    StretchGoesToTheFirst(Needs(ss), Slack(mode), p, share);
  }

  lemma {:induction false} ChargeOfOne(ss: seq<Source>, shares: seq<nat>, p: nat, share: nat)
    requires |shares| == |ss| && p < |ss|
    requires forall i :: 0 <= i < |ss| ==> shares[i] == if i == p then share else 0
    ensures BurntBy(ss, shares) == ss[p := Burnt(ss[p], share)]
  {
  }

  lemma {:induction false} UsedUpByOne(ss: seq<Source>, p: nat, x: Source)
    requires p < |ss| && ss[p].Valid() && x.Valid() && ss[p].Remaining() > 0
    ensures UsedUp(ss, ss[p := x]) == UsedBy(ss[p], x)
  {
    NothingUsedUp(ss);
    UsedUpByAnUpdate(ss, ss, p, x);
    RemainingIsPositiveUntilExhausted(ss[p]);
    RemainingIsPositiveUntilExhausted(x);
  }

  // ---------- a window cut in two ----------
  /** Playing a window up to a moment and then the rest of it, unless it ran out in the first part. */
  ghost function ConsumedInTwo(ss: seq<Source>, mode: Mode, from: int, w1: nat, w2: nat): Burned
    requires ValidSources(ss)
  {
    var first := ConsumedFor(ss, mode, from, w1);
    Then(first, ConsumedFor(first.sources, mode, from + w1, w2))
  }

  /** A window may be cut at a safe moment: the charges, the sources used up in their order, the time
      charged and the moment the vehicle ran out are those of the whole window. A cut anywhere else
      changes what the sources are charged. */
  lemma {:induction false} CutAgreesExactlyAtSafeMoments(ss: seq<Source>, mode: Mode, from: int, w1: nat, w2: nat)
    requires ValidSources(ss) && w1 > 0 && w2 > 0
    ensures ConsumedInTwo(ss, mode, from, w1, w2) == ConsumedFor(ss, mode, from, w1 + w2) <==> SafeCutOf(ss, mode, w1)
  {
    if SafeCutOf(ss, mode, w1) {
      SafeCutAgrees(ss, mode, from, w1, w2);
    } else {
      UnsafeCutDiffers(ss, mode, from, w1, w2);
    }
  }

  lemma {:induction false} SafeCutAgrees(ss: seq<Source>, mode: Mode, from: int, w1: nat, w2: nat)
    requires ValidSources(ss) && w1 > 0 && w2 > 0 && SafeCutOf(ss, mode, w1)
    ensures ConsumedInTwo(ss, mode, from, w1, w2) == ConsumedFor(ss, mode, from, w1 + w2)
  {
    SafeCutOfCharges(ss, mode, w1, w2);
    if !AllExhausted(Charge(ss, mode, w1)) {
      SafeCutOfTimes(ss, mode, w1, w2);
    }
  }

  /** The rest of a window cut at a safe moment continues what its first part left. */
  lemma {:induction false} CutContinues(ss: seq<Source>, mode: Mode, from: int, w1: nat, w2: nat)
    requires ValidSources(ss) && w1 > 0 && w2 > 0 && SafeCutOf(ss, mode, w1)
    requires ConsumedFor(ss, mode, from, w1).ranOut.None?
    ensures var first := ConsumedFor(ss, mode, from, w1);
            ConsumedFor(ss, mode, from, w1 + w2) ==
            Continued(first.exhausted, first.inMotion, ConsumedFor(first.sources, mode, from + w1, w2))
  {
    SafeCutAgrees(ss, mode, from, w1, w2);
  }

  lemma {:induction false} SafeCutOfCharges(ss: seq<Source>, mode: Mode, w1: nat, w2: nat)
    requires ValidSources(ss) && w2 > 0 && SafeCutOf(ss, mode, w1)
    ensures ValidSources(Charge(ss, mode, w1))
    ensures var mid, end := Charge(ss, mode, w1), Charge(ss, mode, w1 + w2);
            && Charge(mid, mode, w2) == end
            && UsedUp(ss, mid) + UsedUp(mid, end) == UsedUp(ss, end)
            && (AllExhausted(mid) ==> end == mid && UsedUp(mid, end) == [] && AllotmentOf(ss, mode) <= w1)
  {
    CutChargesAgreeExactlyWhenSafe(ss, mode, w1, w2);
    UsedUpAcrossSafeCut(ss, mode, w1, w2);
    AfterSafeCut(ss, mode, w1);
    if AllExhausted(Charge(ss, mode, w1)) {
      ExhaustedStays(Charge(ss, mode, w1), mode, w2);
    }
  }

  lemma {:induction false} SafeCutOfTimes(ss: seq<Source>, mode: Mode, w1: nat, w2: nat)
    requires ValidSources(ss) && SafeCutOf(ss, mode, w1)
    ensures ValidSources(Charge(ss, mode, w1))
    ensures !AllExhausted(Charge(ss, mode, w1)) ==>
              && w1 <= AllotmentOf(ss, mode)
              && AllotmentOf(Charge(ss, mode, w1), mode) == AllotmentOf(ss, mode) - w1
  {
    AfterSafeCut(ss, mode, w1);
  }

  lemma {:induction false} UnsafeCutDiffers(ss: seq<Source>, mode: Mode, from: int, w1: nat, w2: nat)
    requires ValidSources(ss) && w1 > 0 && w2 > 0 && !SafeCutOf(ss, mode, w1)
    ensures ConsumedInTwo(ss, mode, from, w1, w2).sources != ConsumedFor(ss, mode, from, w1 + w2).sources
  {
    var mid := Charge(ss, mode, w1);
    CutChargesAgreeExactlyWhenSafe(ss, mode, w1, w2);
    if AllExhausted(mid) {
      ExhaustedStays(mid, mode, w2);
    }
  }

  lemma {:induction false} ExhaustedStays(ss: seq<Source>, mode: Mode, w: nat)
    requires ValidSources(ss) && AllExhausted(ss)
    ensures Charge(ss, mode, w) == ss && UsedUp(ss, Charge(ss, mode, w)) == []
  {
    NoneLeftIsAllExhausted(ss);
    NoneLeftNoAllotment(Needs(ss), Slack(mode), w);
    NothingUsedUp(ss);
  }
}
