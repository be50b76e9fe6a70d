/** What storage makes of a modelled state (backend/internal/simulation/store.go): its sources are read back
    in the order of their names, and its moment in whole microseconds. */
module Storing {
  import opened Energy
  import opened Burning
  import opened Journeys

  const MICROSECOND: int := 1_000

  /** The order of the names "battery", "cng", "diesel", "gasoline" and "lpg". */
  function NameRank(kind: Kind): nat {
    match kind
    case Battery => 0
    case CNG => 1
    case Diesel => 2
    case Gasoline => 3
    case LPG => 4
  }

  function NameOf(kind: Kind): string {
    match kind
    case Battery => "battery"
    case CNG => "cng"
    case Diesel => "diesel"
    case Gasoline => "gasoline"
    case LPG => "lpg"
  }

  /** The order of a dictionary. */
  predicate AtMost(a: string, b: string) {
    a == "" || (b != "" && (a[0] < b[0] || (a[0] == b[0] && AtMost(a[1..], b[1..]))))
  }

  /** The order sources are read back in is that of their names. */
  lemma {:induction false} RanksAreNames(a: Kind, b: Kind)
    ensures NameRank(a) <= NameRank(b) <==> AtMost(NameOf(a), NameOf(b))
  {
    if a == b {
      AtMostItself(NameOf(a));
    }
  }

  lemma {:induction false} AtMostItself(text: string)
    ensures AtMost(text, text)
  {
    if text != "" {
      AtMostItself(text[1..]);
    }
  }

  function Inserted(s: Source, ss: seq<Source>): (r: seq<Source>)
    ensures |r| == |ss| + 1
  {
    if ss == [] || NameRank(s.kind) <= NameRank(ss[0].kind) then [s] + ss else [ss[0]] + Inserted(s, ss[1..])
  }

  function ByName(ss: seq<Source>): (r: seq<Source>)
    ensures |r| == |ss|
  {
    if ss == [] then [] else Inserted(ss[0], ByName(ss[1..]))
  }

  function WholeMicrosecondBefore(moment: int): int {
    moment / MICROSECOND * MICROSECOND
  }

  /** The state as it is read back. */
  function Stored(m: Model): Model {
    m.(sources := ByName(m.sources), processedAt := WholeMicrosecondBefore(m.processedAt))
  }

  predicate InNameOrder(ss: seq<Source>) {
    forall i :: 0 <= i < |ss| - 1 ==> NameRank(ss[i].kind) <= NameRank(ss[i + 1].kind)
  }

  lemma {:induction false} InsertedKeepsSources(s: Source, ss: seq<Source>)
    ensures multiset(Inserted(s, ss)) == multiset(ss) + multiset{s}
  {
    if !(ss == [] || NameRank(s.kind) <= NameRank(ss[0].kind)) {
      InsertedKeepsSources(s, ss[1..]);
      assert ss == [ss[0]] + ss[1..];
    }
  }

  /** Storing keeps every source with its charge and nothing of the order it was used in. */
  lemma {:induction false} ByNameKeepsSources(ss: seq<Source>)
    ensures multiset(ByName(ss)) == multiset(ss)
  {
    if ss != [] {
      ByNameKeepsSources(ss[1..]);
      InsertedKeepsSources(ss[0], ByName(ss[1..]));
      assert ss == [ss[0]] + ss[1..];
    }
  }

  lemma {:induction false} InsertedStaysInOrder(s: Source, ss: seq<Source>)
    requires InNameOrder(ss)
    ensures InNameOrder(Inserted(s, ss))
    ensures ss != [] ==> Inserted(s, ss)[0] == s || Inserted(s, ss)[0] == ss[0]
  {
    if ss != [] && NameRank(s.kind) > NameRank(ss[0].kind) {
      InsertedStaysInOrder(s, ss[1..]);
      var rest := Inserted(s, ss[1..]);
      assert rest[0] == s || (|ss| > 1 && rest[0] == ss[1]);
      forall i | 0 <= i < |rest|
        ensures NameRank(Inserted(s, ss)[i].kind) <= NameRank(Inserted(s, ss)[i + 1].kind)
      {
        assert Inserted(s, ss) == [ss[0]] + rest;
        if i > 0 {
          assert NameRank(rest[i - 1].kind) <= NameRank(rest[i].kind);
        }
      }
    }
  }

  lemma {:induction false} ByNameIsInOrder(ss: seq<Source>)
    ensures InNameOrder(ByName(ss))
  {
    if ss != [] {
      ByNameIsInOrder(ss[1..]);
      InsertedStaysInOrder(ss[0], ByName(ss[1..]));
    }
  }

  /** A state that was read back is stored as it is. */
  lemma {:induction false} OrderedIsStoredAsIs(ss: seq<Source>)
    requires InNameOrder(ss)
    ensures ByName(ss) == ss
  {
    if ss != [] {
      OrderedIsStoredAsIs(ss[1..]);
      assert ss == [ss[0]] + ss[1..];
    }
  }

  /** A list of sources survives being stored exactly when it was in the order of its names already. */
  lemma {:induction false} OrderSurvivesExactlyByName(ss: seq<Source>)
    ensures ByName(ss) == ss <==> InNameOrder(ss)
  {
    ByNameIsInOrder(ss);
    if InNameOrder(ss) {
      OrderedIsStoredAsIs(ss);
    }
  }

  /** The gas profile burns LPG before gasoline; its stored state burns gasoline first. */
  lemma {:induction false} GasProfileIsReordered(lpg: Source, gasoline: Source)
    requires lpg.kind == LPG && gasoline.kind == Gasoline
    ensures ByName([lpg, gasoline]) == [gasoline, lpg]
  {
    assert [lpg, gasoline][1..] == [gasoline] && [gasoline][1..] == [];
    assert ByName([gasoline]) == [gasoline];
    assert Inserted(lpg, [gasoline]) == [gasoline] + Inserted(lpg, []);
  }

  lemma {:induction false} StoredStaysUsable(m: Model)
    requires StateUsable(m)
    ensures StateUsable(Stored(m)) && InNameOrder(Stored(m).sources)
    ensures AllExhausted(m.sources) ==> AllExhausted(Stored(m).sources)
  {
    var r := ByName(m.sources);
    ByNameKeepsSources(m.sources);
    ByNameIsInOrder(m.sources);
    forall i | 0 <= i < |r|
      ensures r[i].Valid() && (AllExhausted(m.sources) ==> r[i].Exhausted())
    {
      assert r[i] in multiset(r);
      var j :| 0 <= j < |m.sources| && m.sources[j] == r[i];
    }
  }
}
