/** How a window of time is shared out among an ordered list of sources, each described by its need alone:
    how many nanoseconds of it exhaust the source. A need of nothing is a source that is empty already.
    `slack` is the time a window allots to a source beyond its need: none while driving. */
module Shares {
  import opened Wrappers

  ghost function Allotted(need: nat, slack: nat): nat {
    if need == 0 then 0 else need + slack
  }

  ghost function Share(need: nat, slack: nat, w: nat): (share: nat)
    ensures share <= w
  {
    Min(w, Allotted(need, slack))
  }

  /** The share each source gets of a window of `w` nanoseconds. */
  ghost function SharesOf(needs: seq<nat>, slack: nat, w: nat): (shares: seq<nat>)
    ensures |shares| == |needs|
  {
    if needs == [] then []
    else
      var share := Share(needs[0], slack, w);
      [share] + SharesOf(needs[1..], slack, w - share)
  }

  /** How long the sources can be charged for before none is left. */
  ghost function Allotment(needs: seq<nat>, slack: nat): nat {
    if needs == [] then 0 else Allotted(needs[0], slack) + Allotment(needs[1..], slack)
  }

  ghost function Left(need: nat, share: nat): nat {
    Max(0, need - share)
  }

  /** What the sources need after each was charged its share. */
  ghost function LeftOf(needs: seq<nat>, shares: seq<nat>): (left: seq<nat>)
    requires |needs| == |shares|
    ensures |left| == |needs|
  {
    if needs == [] then [] else [Left(needs[0], shares[0])] + LeftOf(needs[1..], shares[1..])
  }

  ghost function Sum(xs: seq<nat>): nat {
    if xs == [] then 0 else xs[0] + Sum(xs[1..])
  }

  ghost function Added(a: seq<nat>, b: seq<nat>): (c: seq<nat>)
    requires |a| == |b|
    ensures |c| == |a|
  {
    if a == [] then [] else [a[0] + b[0]] + Added(a[1..], b[1..])
  }

  ghost predicate NoneLeft(needs: seq<nat>) {
    forall i :: 0 <= i < |needs| ==> needs[i] == 0
  }

  /** The shares partition the part of the window the sources can cover. */
  lemma {:induction false} SharesPartition(needs: seq<nat>, slack: nat, w: nat)
    ensures Sum(SharesOf(needs, slack, w)) == Min(w, Allotment(needs, slack))
  {
    if needs != [] {
      SharesPartition(needs[1..], slack, w - Share(needs[0], slack, w));
    }
  }

  lemma {:induction false} NoTimeNoShare(needs: seq<nat>, slack: nat)
    ensures forall i :: 0 <= i < |needs| ==> SharesOf(needs, slack, 0)[i] == 0
    ensures LeftOf(needs, SharesOf(needs, slack, 0)) == needs
  {
    if needs != [] {
      NoTimeNoShare(needs[1..], slack);
    }
  }

  lemma {:induction false} NoneLeftByHeadAndTail(needs: seq<nat>)
    requires needs != []
    ensures NoneLeft(needs) <==> needs[0] == 0 && NoneLeft(needs[1..])
  {
    if needs[0] == 0 && NoneLeft(needs[1..]) {
      assert forall i :: 0 < i < |needs| ==> needs[i] == needs[1..][i - 1];
    }
  }

  // ---------- cutting a window in two ----------

  /** Whether a window may be cut `w` nanoseconds in. A cut is unsafe when it falls after the source in use
      became empty and before its allotment ends. */
  ghost predicate SafeCut(needs: seq<nat>, slack: nat, w: int) {
    needs == [] || w <= 0 || w < needs[0]
    || (w >= Allotted(needs[0], slack) && SafeCut(needs[1..], slack, w - Allotted(needs[0], slack)))
  }

  /** A window in two parts gives every source what the whole window gives it, exactly at the safe cuts. */
  lemma {:induction false} CutAgreesExactlyWhenSafe(needs: seq<nat>, slack: nat, w1: nat, w2: nat)
    requires w2 > 0
    ensures var first := SharesOf(needs, slack, w1);
            Added(first, SharesOf(LeftOf(needs, first), slack, w2)) == SharesOf(needs, slack, w1 + w2)
            <==> SafeCut(needs, slack, w1)
  {
    if needs != [] {
      CutOfFirst(needs, slack, w1, w2);
      if w1 < needs[0] {
        CutInsideNeed(needs, slack, w1, w2);
      } else if Allotted(needs[0], slack) <= w1 {
        CutAgreesExactlyWhenSafe(needs[1..], slack, w1 - Allotted(needs[0], slack), w2);
      }
    }
  }

  /** Giving out a window in two parts gives every source what giving it out at once does. */
  ghost predicate CutAgrees(needs: seq<nat>, slack: nat, w1: nat, w2: nat) {
    var first := SharesOf(needs, slack, w1);
    Added(first, SharesOf(LeftOf(needs, first), slack, w2)) == SharesOf(needs, slack, w1 + w2)
  }

  /** A cut agrees when it agrees for the first need and for the rest. */
  lemma {:induction false} CutOfFirst(needs: seq<nat>, slack: nat, w1: nat, w2: nat)
    requires needs != []
    ensures var share := Share(needs[0], slack, w1);
            var again := Share(Left(needs[0], share), slack, w2);
            CutAgrees(needs, slack, w1, w2) <==>
            && share + again == Share(needs[0], slack, w1 + w2)
            && CutAgrees(needs[1..], slack, w1 - share, w2 - again)
  {
    var first, whole := SharesOf(needs, slack, w1), SharesOf(needs, slack, w1 + w2);
    var left := LeftOf(needs, first);
    var twice := Added(first, SharesOf(left, slack, w2));
    assert first[1..] == SharesOf(needs[1..], slack, w1 - first[0]);
    assert left[1..] == LeftOf(needs[1..], first[1..]);
    assert twice == [twice[0]] + twice[1..] && whole == [whole[0]] + whole[1..];
  }

  /** A cut before the first need ends gives the others nothing before it. */
  lemma {:induction false} CutInsideNeed(needs: seq<nat>, slack: nat, w1: nat, w2: nat)
    requires needs != [] && w1 < needs[0]
    ensures CutAgrees(needs, slack, w1, w2)
  {
    var again := Share(needs[0] - w1, slack, w2);
    CutOfFirst(needs, slack, w1, w2);
    NoTimeNoShare(needs[1..], slack);
    AddedToNothing(SharesOf(needs[1..], slack, 0), SharesOf(needs[1..], slack, w2 - again));
  }

  lemma {:induction false} AddedToNothing(zeros: seq<nat>, xs: seq<nat>)
    requires |zeros| == |xs| && forall i :: 0 <= i < |zeros| ==> zeros[i] == 0
    ensures Added(zeros, xs) == xs
  {
    if xs != [] {
      AddedToNothing(zeros[1..], xs[1..]);
    }
  }

  lemma {:induction false} DrivingCutsAreSafe(needs: seq<nat>, w: int)
    ensures SafeCut(needs, 0, w)
  {
    if needs != [] {
      DrivingCutsAreSafe(needs[1..], w - Allotted(needs[0], 0));
    }
  }

  /** After a safe cut the allotment is shorter by the part before the cut, and nothing is left only when
      that part covered the whole of it. */
  lemma {:induction false} LeftOfFirst(needs: seq<nat>, slack: nat, w: nat)
    requires needs != []
    ensures var share := Share(needs[0], slack, w);
            LeftOf(needs, SharesOf(needs, slack, w)) ==
            [Left(needs[0], share)] + LeftOf(needs[1..], SharesOf(needs[1..], slack, w - share))
  {
    var shares := SharesOf(needs, slack, w);
    assert shares[1..] == SharesOf(needs[1..], slack, w - shares[0]);
  }

  lemma {:induction false} AllotmentOfFirst(need: nat, others: seq<nat>, slack: nat)
    ensures Allotment([need] + others, slack) == Allotted(need, slack) + Allotment(others, slack)
    ensures NoneLeft([need] + others) <==> need == 0 && NoneLeft(others)
  {
    var all := [need] + others;
    assert all[1..] == others;
    NoneLeftByHeadAndTail(all);
  }

  lemma {:induction false} AllotmentAfterSafeCut(needs: seq<nat>, slack: nat, w: nat)
    requires SafeCut(needs, slack, w)
    ensures var left := LeftOf(needs, SharesOf(needs, slack, w));
            Allotment(left, slack) == Max(0, Allotment(needs, slack) - w)
            && (NoneLeft(left) <==> Allotment(needs, slack) <= w)
  {
    if needs != [] {
      var rest, share := needs[1..], Share(needs[0], slack, w);
      var others := LeftOf(rest, SharesOf(rest, slack, w - share));
      LeftOfFirst(needs, slack, w);
      AllotmentOfFirst(Left(needs[0], share), others, slack);
      if w < needs[0] {
        NoTimeNoShare(rest, slack);
      } else {
        AllotmentAfterSafeCut(rest, slack, w - share);
      }
    }
  }

  // ---------- one stretch of a window ----------

  /** A stretch no longer than the allotment of the first source in use goes to that source alone, and a
      window may be cut where the allotment ends. */
  lemma {:induction false} StretchGoesToTheFirst(needs: seq<nat>, slack: nat, p: nat, share: nat)
    requires p < |needs| && (forall i :: 0 <= i < p ==> needs[i] == 0) && needs[p] > 0
    requires share <= Allotted(needs[p], slack)
    ensures forall i :: 0 <= i < |needs| ==> SharesOf(needs, slack, share)[i] == if i == p then share else 0
    ensures share == Allotted(needs[p], slack) || share < needs[p] ==> SafeCut(needs, slack, share)
    ensures share <= Allotment(needs, slack)
  {
    if p > 0 {
      StretchGoesToTheFirst(needs[1..], slack, p - 1, share);
    } else {
      NoTimeNoShare(needs[1..], slack);
    }
  }

  lemma {:induction false} NoneLeftNoAllotment(needs: seq<nat>, slack: nat, w: nat)
    requires NoneLeft(needs)
    ensures Allotment(needs, slack) == 0
    ensures forall i :: 0 <= i < |needs| ==> SharesOf(needs, slack, w)[i] == 0
  {
    if needs != [] {
      NoneLeftNoAllotment(needs[1..], slack, w);
    }
  }

  // ---------- the source in use ----------

  /** What the first source that holds something needs, and nothing when none does. */
  ghost function FirstNeed(needs: seq<nat>): nat {
    if needs == [] then 0 else if needs[0] > 0 then needs[0] else FirstNeed(needs[1..])
  }

  lemma {:induction false} FirstNeedIsPartOfAll(needs: seq<nat>)
    ensures FirstNeed(needs) <= Sum(needs)
    ensures FirstNeed(needs) == 0 <==> Sum(needs) == 0
  {
    if needs != [] {
      FirstNeedIsPartOfAll(needs[1..]);
    }
  }

  /** While the source in use lasts, driving takes from its need alone. */
  lemma {:induction false} FirstNeedShrinks(needs: seq<nat>, w: nat)
    requires w < FirstNeed(needs)
    ensures FirstNeed(LeftOf(needs, SharesOf(needs, 0, w))) == FirstNeed(needs) - w
  {
    if needs[0] == 0 {
      FirstNeedShrinks(needs[1..], w);
    }
  }
}
