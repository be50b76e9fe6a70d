/** The one spelling of what a cursor was issued for (backend/internal/platform/cursor/signer.go). A text is a
    sequence of bytes, each written as the character of its code. */
module Scopes {
  import opened Wrappers
  import opened Digits

  datatype Parameter = Parameter(name: string, value: string)

  /** `owner` is the text of the account, which is never empty, or nothing for a collection that has none. */
  datatype Scope = Scope(operation: string, owner: Option<string>, params: seq<Parameter>)

  const SEPARATOR: char := '\0'

  function OwnerText(s: Scope): string {
    match s.owner
    case None => []
    case Some(text) => text
  }

  /** A length, the separator and the value: nothing in a value can be read as the end of it. */
  function Field(value: string): string {
    Printed(|value|) + [SEPARATOR] + value
  }

  function FieldsOf(params: seq<Parameter>): string {
    if params == [] then [] else Field(params[0].name) + Field(params[0].value) + FieldsOf(params[1..])
  }

  function ScopeText(s: Scope): string {
    Field(s.operation) + Field(OwnerText(s)) + FieldsOf(s.params)
  }

  /** Two fields that are followed by anything at all and spell alike are the same field. */
  lemma {:induction false} FieldIsRead(a: string, restA: string, b: string, restB: string)
    requires Field(a) + restA == Field(b) + restB
    ensures a == b && restA == restB
  {
    var x, y := Printed(|a|), Printed(|b|);
    var text := Field(a) + restA;
    assert text == x + ([SEPARATOR] + a + restA) && text == y + ([SEPARATOR] + b + restB);
    assert text[|x|] == SEPARATOR && text[|y|] == SEPARATOR;
    assert |x| == |y|;
    assert x == text[..|x|] && y == text[..|y|];
    PrintedIsRead(|a|);
    PrintedIsRead(|b|);
    assert a == text[|x| + 1..|x| + 1 + |a|] && restA == text[|x| + 1 + |a|..];
    assert b == text[|y| + 1..|y| + 1 + |b|] && restB == text[|y| + 1 + |b|..];
  }

  lemma {:induction false} FieldsAreRead(a: seq<Parameter>, b: seq<Parameter>)
    requires FieldsOf(a) == FieldsOf(b)
    ensures a == b
    decreases |a|
  {
    if a != [] && b != [] {
      ParameterIsRead(a[0], FieldsOf(a[1..]), b[0], FieldsOf(b[1..]));
      FieldsAreRead(a[1..], b[1..]);
      assert a == [a[0]] + a[1..] && b == [b[0]] + b[1..];
    }
  }

  lemma {:induction false} ParameterIsRead(p: Parameter, restP: string, q: Parameter, restQ: string)
    requires Field(p.name) + Field(p.value) + restP == Field(q.name) + Field(q.value) + restQ
    ensures p == q && restP == restQ
  {
    assert Field(p.name) + Field(p.value) + restP == Field(p.name) + (Field(p.value) + restP);
    assert Field(q.name) + Field(q.value) + restQ == Field(q.name) + (Field(q.value) + restQ);
    FieldIsRead(p.name, Field(p.value) + restP, q.name, Field(q.value) + restQ);
    FieldIsRead(p.value, restP, q.value, restQ);
  }

  /** No two scopes spell alike, whatever bytes their names and values hold. */
  lemma {:induction false} ScopeTextIsInjective(a: Scope, b: Scope)
    requires ScopeText(a) == ScopeText(b)
    ensures a.operation == b.operation && OwnerText(a) == OwnerText(b) && a.params == b.params
  {
    var (fa, fb) := (FieldsOf(a.params), FieldsOf(b.params));
    assert ScopeText(a) == Field(a.operation) + (Field(OwnerText(a)) + fa);
    assert ScopeText(b) == Field(b.operation) + (Field(OwnerText(b)) + fb);
    FieldIsRead(a.operation, Field(OwnerText(a)) + fa, b.operation, Field(OwnerText(b)) + fb);
    FieldIsRead(OwnerText(a), fa, OwnerText(b), fb);
    FieldsAreRead(a.params, b.params);
  }

  // ---------- texts a payload can carry ----------

  predicate Continuation(c: char, low: int, high: int) {
    low <= c as int <= high
  }

  /** How many bytes the character a text begins with takes, or nothing when it begins with no character at all
      (section 4 of RFC 3629). */
  function RuneLength(s: string): (n: nat)
    requires s != []
    ensures n <= |s|
  {
    var lead := s[0] as int;
    if lead < 0x80 then 1
    else if 0xC2 <= lead <= 0xDF then
      if |s| >= 2 && Continuation(s[1], 0x80, 0xBF) then 2 else 0
    else if 0xE0 <= lead <= 0xEF then
      if |s| >= 3 && Continuation(s[1], if lead == 0xE0 then 0xA0 else 0x80, if lead == 0xED then 0x9F else 0xBF)
        && Continuation(s[2], 0x80, 0xBF)
      then 3 else 0
    else if 0xF0 <= lead <= 0xF4 then
      if |s| >= 4 && Continuation(s[1], if lead == 0xF0 then 0x90 else 0x80, if lead == 0xF4 then 0x8F else 0xBF)
        && Continuation(s[2], 0x80, 0xBF) && Continuation(s[3], 0x80, 0xBF)
      then 4 else 0
    else 0
  }

  predicate Utf8(s: string)
    decreases |s|
  {
    s == [] || (RuneLength(s) > 0 && Utf8(s[RuneLength(s)..]))
  }

  /** The bytes of the character that stands for a byte that is none. */
  const REPLACEMENT: string := [0xEF as char, 0xBF as char, 0xBD as char]

  /** A text after it was written into a payload and read again: every byte that begins no character has become
      the replacement character. */
  function Coerced(s: string): string
    decreases |s|
  {
    if s == [] then []
    else if RuneLength(s) == 0 then REPLACEMENT + Coerced(s[1..])
    else s[..RuneLength(s)] + Coerced(s[RuneLength(s)..])
  }

  lemma {:induction false} RuneIsItsBytes(s: string, rest: string)
    requires s != [] && RuneLength(s) > 0
    ensures RuneLength(s[..RuneLength(s)] + rest) == RuneLength(s)
  {
    var n, text := RuneLength(s), s[..RuneLength(s)] + rest;
    forall i | 0 <= i < n
      ensures text[i] == s[i]
    {
    }
  }

  lemma {:induction false} CoercedIsUtf8(s: string)
    ensures Utf8(Coerced(s))
    decreases |s|
  {
    if s != [] {
      var n := RuneLength(s);
      if n == 0 {
        var rest := Coerced(s[1..]);
        CoercedIsUtf8(s[1..]);
        assert RuneLength(REPLACEMENT + rest) == 3;
        assert (REPLACEMENT + rest)[3..] == rest;
      } else {
        var rest := Coerced(s[n..]);
        CoercedIsUtf8(s[n..]);
        RuneIsItsBytes(s, rest);
        assert (s[..n] + rest)[n..] == rest;
      }
    }
  }

  /** A payload carries a text unchanged exactly when the text is valid UTF-8. */
  lemma {:induction false} CarriedExactlyWhenUtf8(s: string)
    ensures Coerced(s) == s <==> Utf8(s)
    decreases |s|
  {
    CoercedIsUtf8(s);
    if s != [] && Utf8(s) {
      var n := RuneLength(s);
      CarriedExactlyWhenUtf8(s[n..]);
      assert s == s[..n] + s[n..];
    }
  }

  // ---------- the scope a payload carries ----------

  /** The order of two names, byte by byte. */
  predicate Before(a: string, b: string)
  {
    if b == [] then false
    else if a == [] then true
    else a[0] < b[0] || (a[0] == b[0] && Before(a[1..], b[1..]))
  }

  predicate InNameOrder(params: seq<Parameter>) {
    forall i :: 0 <= i < |params| - 1 ==> Before(params[i].name, params[i + 1].name)
  }

  predicate DistinctNames(params: seq<Parameter>) {
    forall i, j :: 0 <= i < j < |params| ==> params[i].name != params[j].name
  }

  /** One value under each name: of two, the one that comes later. */
  function Inserted(p: Parameter, params: seq<Parameter>): seq<Parameter> {
    if params == [] || Before(p.name, params[0].name) then [p] + params
    else if params[0].name == p.name then params
    else [params[0]] + Inserted(p, params[1..])
  }

  function ByName(params: seq<Parameter>): seq<Parameter> {
    if params == [] then [] else Inserted(params[0], ByName(params[1..]))
  }

  function NamesCoerced(params: seq<Parameter>): (coerced: seq<Parameter>)
    ensures |coerced| == |params|
    ensures forall i :: 0 <= i < |params| ==> coerced[i] == Parameter(Coerced(params[i].name), params[i].value)
  {
    seq(|params|, i requires 0 <= i < |params| => Parameter(Coerced(params[i].name), params[i].value))
  }

  const MAX_OPERATION: nat := 64
  const MAX_PARAMETER_NAME: nat := 64
  const MAX_PARAMETER_VALUE: nat := 256

  predicate GoodParameter(p: Parameter) {
    0 < |p.name| <= 64 && |p.value| <= 256 && Utf8(p.value)
  }

  predicate Valid(s: Scope) {
    && 0 < |s.operation| <= 64
    && (s.owner.Some? ==> s.owner.value != [])
    && (forall i :: 0 <= i < |s.params| ==> GoodParameter(s.params[i]))
    && DistinctNames(s.params)
  }

  datatype Fault = NoOperation | LongOperation | NoOwner | BadName | BadValue | StatedTwice

  /** A scope that cannot be signed is refused at the first rule it breaks. */
  method Validate(s: Scope) returns (r: Result<(), Fault>)
    ensures r.Ok? <==> Valid(s)
    ensures s.operation == "" <==> r == Err(NoOperation)
    ensures |s.operation| > 64 <==> r == Err(LongOperation)
    ensures 0 < |s.operation| <= 64 && s.owner == Some("") <==> r == Err(NoOwner)
  {
    if s.operation == [] {
      return Err(NoOperation);
    }
    if |s.operation| > MAX_OPERATION {
      return Err(LongOperation);
    }
    if s.owner == Some([]) {
      return Err(NoOwner);
    }
    var seen: set<string> := {};
    var i := 0;
    while i < |s.params|
      invariant 0 <= i <= |s.params|
      invariant forall j :: 0 <= j < i ==> GoodParameter(s.params[j]) && s.params[j].name in seen
      invariant forall name :: name in seen ==> exists j :: 0 <= j < i && s.params[j].name == name
      invariant DistinctNames(s.params[..i])
    {
      var one := s.params[i];
      if one.name == [] || |one.name| > MAX_PARAMETER_NAME {
        assert !GoodParameter(s.params[i]);
        return Err(BadName);
      }
      if |one.value| > MAX_PARAMETER_VALUE || !Utf8(one.value) {
        assert !GoodParameter(s.params[i]);
        return Err(BadValue);
      }
      if one.name in seen {
        return Err(StatedTwice);
      }
      seen := seen + {one.name};
      i := i + 1;
    }
    assert s.params[..|s.params|] == s.params;
    return Ok(());
  }

  /** The scope read back from a payload: a map from names to values, written in the order of its names, whose
      names are declared in their order again. */
  function ReadBack(s: Scope): Scope {
    s.(operation := Coerced(s.operation), params := ByName(NamesCoerced(ByName(s.params))))
  }

  predicate Matches(a: Scope, b: Scope) {
    ScopeText(a) == ScopeText(b)
  }

  lemma {:induction false} BeforeIsTotal(a: string, b: string)
    ensures Before(a, b) || Before(b, a) || a == b
    ensures !(Before(a, b) && Before(b, a)) && !Before(a, a)
    decreases |a|
  {
    if a != [] && b != [] {
      BeforeIsTotal(a[1..], b[1..]);
      assert a == [a[0]] + a[1..] && b == [b[0]] + b[1..];
    }
    if a != [] {
      BeforeIsTotal(a[1..], a[1..]);
    }
  }

  predicate NamedIn(name: string, params: seq<Parameter>) {
    exists i :: 0 <= i < |params| && params[i].name == name
  }

  lemma {:induction false} InsertedIsInOrder(p: Parameter, params: seq<Parameter>)
    requires InNameOrder(params)
    ensures InNameOrder(Inserted(p, params)) && Inserted(p, params) != []
    ensures Inserted(p, params)[0].name == p.name || (params != [] && Inserted(p, params)[0].name == params[0].name)
    decreases |params|
  {
    if params != [] && !Before(p.name, params[0].name) && params[0].name != p.name {
      var rest := Inserted(p, params[1..]);
      assert InNameOrder(params[1..]) by {
        TailInOrder(params);
      }
      InsertedIsInOrder(p, params[1..]);
      BeforeIsTotal(p.name, params[0].name);
      if |params| > 1 {
        assert Before(params[0].name, params[1].name);
      }
      InOrderBehind(params[0], rest);
    } else if params == [] || Before(p.name, params[0].name) {
      InOrderBehind(p, params);
    }
  }

  lemma {:induction false} TailInOrder(params: seq<Parameter>)
    requires InNameOrder(params) && params != []
    ensures InNameOrder(params[1..])
  {
    forall i | 0 <= i < |params[1..]| - 1
      ensures Before(params[1..][i].name, params[1..][i + 1].name)
    {
      assert Before(params[i + 1].name, params[i + 2].name);
    }
  }

  lemma {:induction false} InOrderBehind(p: Parameter, params: seq<Parameter>)
    requires InNameOrder(params) && (params != [] ==> Before(p.name, params[0].name))
    ensures InNameOrder([p] + params)
  {
    forall i | 0 <= i < |params|
      ensures Before(([p] + params)[i].name, ([p] + params)[i + 1].name)
    {
      assert i > 0 ==> Before(params[i - 1].name, params[i].name);
    }
  }

  lemma {:induction false} InsertedNames(p: Parameter, params: seq<Parameter>, name: string)
    requires NamedIn(name, Inserted(p, params))
    ensures name == p.name || NamedIn(name, params)
    decreases |params|
  {
    var all := Inserted(p, params);
    var i :| 0 <= i < |all| && all[i].name == name;
    if params == [] || Before(p.name, params[0].name) {
      assert i > 0 ==> params[i - 1].name == name;
    } else if params[0].name != p.name && i > 0 {
      assert Inserted(p, params[1..])[i - 1].name == name;
      InsertedNames(p, params[1..], name);
      if name != p.name {
        var j :| 0 <= j < |params[1..]| && params[1..][j].name == name;
        assert params[j + 1].name == name;
      }
    }
  }

  lemma {:induction false} InsertedIsAdded(p: Parameter, params: seq<Parameter>)
    requires !NamedIn(p.name, params)
    ensures multiset(Inserted(p, params)) == multiset(params) + multiset{p}
    decreases |params|
  {
    if params != [] {
      assert params == [params[0]] + params[1..] && params[0].name != p.name;
      if !Before(p.name, params[0].name) {
        assert !NamedIn(p.name, params[1..]) by {
          forall j | 0 <= j < |params[1..]|
            ensures params[1..][j].name != p.name
          {
            assert params[j + 1].name != p.name;
          }
        }
        InsertedIsAdded(p, params[1..]);
      }
    }
  }

  /** What is read is in the order of its names, and names nothing that was not written. */
  lemma {:induction false} ByNameIsInOrder(params: seq<Parameter>)
    ensures InNameOrder(ByName(params))
    ensures forall name :: NamedIn(name, ByName(params)) ==> NamedIn(name, params)
    decreases |params|
  {
    if params != [] {
      var rest := ByName(params[1..]);
      ByNameIsInOrder(params[1..]);
      InsertedIsInOrder(params[0], rest);
      forall name | NamedIn(name, ByName(params))
        ensures NamedIn(name, params)
      {
        InsertedNames(params[0], rest, name);
        if name != params[0].name {
          var j :| 0 <= j < |params[1..]| && params[1..][j].name == name;
          assert params[j + 1].name == name;
        } else {
          assert params[0].name == name;
        }
      }
    }
  }

  /** Parameters that are named apart are all kept. */
  lemma {:induction false} ByNameKeepsAll(params: seq<Parameter>)
    requires DistinctNames(params)
    ensures multiset(ByName(params)) == multiset(params)
    decreases |params|
  {
    if params != [] {
      ByNameKeepsAll(params[1..]);
      ByNameIsInOrder(params[1..]);
      assert !NamedIn(params[0].name, params[1..]) by {
        forall j | 0 <= j < |params[1..]|
          ensures params[1..][j].name != params[0].name
        {
          assert params[j + 1].name != params[0].name;
        }
      }
      InsertedIsAdded(params[0], ByName(params[1..]));
      assert params == [params[0]] + params[1..];
    }
  }

  lemma {:induction false} OrderedStays(params: seq<Parameter>)
    requires InNameOrder(params)
    ensures ByName(params) == params
    decreases |params|
  {
    if params != [] {
      assert params == [params[0]] + params[1..];
      TailInOrder(params);
      OrderedStays(params[1..]);
      if |params| > 1 {
        assert Before(params[0].name, params[1].name);
      }
    }
  }

  /** The operation and the names survive a payload. */
  predicate NamesCarried(s: Scope) {
    Utf8(s.operation) && forall i :: 0 <= i < |s.params| ==> Utf8(s.params[i].name)
  }

  lemma {:induction false} CarriedAsWritten(s: Scope)
    requires NamesCarried(s) && InNameOrder(s.params)
    ensures ReadBack(s) == s
  {
    OrderedStays(s.params);
    CarriedExactlyWhenUtf8(s.operation);
    forall i | 0 <= i < |s.params|
      ensures NamesCoerced(s.params)[i] == s.params[i]
    {
      CarriedExactlyWhenUtf8(s.params[i].name);
    }
    assert NamesCoerced(s.params) == s.params;
  }

  /** Whatever was written, what is read is named in valid UTF-8 and in the order of its names. */
  lemma {:induction false} ReadIsCarried(s: Scope)
    ensures NamesCarried(ReadBack(s)) && InNameOrder(ReadBack(s).params)
  {
    var written := NamesCoerced(ByName(s.params));
    var read := ByName(written);
    CoercedIsUtf8(s.operation);
    ByNameIsInOrder(written);
    forall i | 0 <= i < |read|
      ensures Utf8(read[i].name)
    {
      assert NamedIn(read[i].name, read);
      var j :| 0 <= j < |written| && written[j].name == read[i].name;
      CoercedIsUtf8(ByName(s.params)[j].name);
    }
  }

  /** A cursor is accepted under the scope it was issued for exactly when that scope declared its parameters in the
      order of their names, and its operation and its names are valid UTF-8. */
  lemma {:induction false} ScopeMatchesItselfExactlyWhenCarried(s: Scope)
    requires Valid(s)
    ensures Valid(ReadBack(s)) && Matches(ReadBack(s), s) <==> NamesCarried(s) && InNameOrder(s.params)
  {
    if NamesCarried(s) && InNameOrder(s.params) {
      CarriedAsWritten(s);
    }
    if Matches(ReadBack(s), s) {
      ScopeTextIsInjective(ReadBack(s), s);
      ReadIsCarried(s);
    }
  }
}
