/**
 The routing key of a worker event, printed by the worker and parsed by the backend:
 wa.event.<connection id>.<event name>, where the name may hold dots of its own.
 */
module EventKey {
  import opened Wrappers
  import opened Text

  const PREFIX := "wa.event."
  const MAX_UINT64 := 0xFFFF_FFFF_FFFF_FFFF

  datatype Event = Event(id: nat, name: string)

  predicate IsDigit(c: char) { '0' <= c <= '9' }

  /** The decimal form that %d prints for a number that is not negative. */
  function PrintNat(n: nat): (s: string)
    ensures s != ""
    ensures forall c :: c in s ==> IsDigit(c)
  {
    var last := ('0' as int + n % 10) as char;
    if n < 10 then [last] else PrintNat(n / 10) + [last]
  }

  function PrintInt(n: int): string {
    if n < 0 then "-" + PrintNat(-n) else PrintNat(n)
  }

  function RoutingKey(connID: int, eventType: string): string {
    PREFIX + PrintInt(connID) + "." + eventType
  }

  function DigitsValue(s: string): nat
    requires forall c :: c in s ==> IsDigit(c)
  {
    if s == "" then 0
    else
      assert IsDigit(s[|s| - 1]) by { assert s[|s| - 1] in s; }
      DigitsValue(s[..|s| - 1]) * 10 + (s[|s| - 1] as int - '0' as int)
  }

  /** strconv.ParseUint in base 10 with 64 bits: digits only, and no more than 64 bits of them. */
  function ParseUint(s: string): Option<nat> {
    if s == "" || (exists c :: c in s && !IsDigit(c)) then None
    else if DigitsValue(s) > MAX_UINT64 then None
    else Some(DigitsValue(s))
  }

  function ParseEventType(eventType: string): Option<Event> {
    if !(PREFIX <= eventType) then None
    else
      var rest := eventType[|PREFIX|..];
      var dot := IndexOf(rest, '.');
      if dot == 0 || dot >= |rest| - 1 then None
      else match ParseUint(rest[..dot])
        case None => None
        case Some(id) => Some(Event(id, rest[dot + 1..]))
  }

  lemma {:induction false} ValueOfPrint(n: nat)
    ensures DigitsValue(PrintNat(n)) == n
  {
    var s := PrintNat(n);
    var last := ('0' as int + n % 10) as char;
    assert s[|s| - 1] == last;
    if n < 10 {
      assert s[..|s| - 1] == "";
    } else {
      assert s[..|s| - 1] == PrintNat(n / 10);
      ValueOfPrint(n / 10);
    }
  }

  /** What ParseUint makes of a printed integer. */
  lemma ParseOfPrint(n: int)
    ensures ParseUint(PrintInt(n)) == if 0 <= n <= MAX_UINT64 then Some(n) else None
    ensures PrintInt(n) != "" && '.' !in PrintInt(n)
  {
    if n < 0 {
      assert PrintInt(n)[0] == '-' && PrintInt(n)[0] in PrintInt(n);
    } else {
      ValueOfPrint(n);
    }
  }

  /** The part up to the first dot is the id, whatever dots follow. */
  lemma ParseOfKey(id: string, name: string)
    requires id != "" && '.' !in id
    ensures ParseEventType(PREFIX + id + "." + name)
            == if name == "" || ParseUint(id).None? then None else Some(Event(ParseUint(id).value, name))
  {
    hide ParseUint;
    var key, rest := PREFIX + id + "." + name, id + ("." + name);
    assert key == PREFIX + rest;
    assert key[|PREFIX|..] == rest;
    IndexOfConcat(id, "." + name, '.');
    assert rest[..|id|] == id && rest[|id| + 1..] == name;
  }

  /** The text is a key: the prefix, a decimal id of 64 bits, a dot, and a name. */
  predicate IsKey(s: string, id: string, name: string) {
    && id != "" && name != "" && (forall c :: c in id ==> IsDigit(c)) && DigitsValue(id) <= MAX_UINT64
    && s == "wa.event." + id + "." + name
  }

  lemma KeyIsParsed(s: string, id: string, name: string)
    requires IsKey(s, id, name)
    ensures ParseEventType(s) == Some(Event(DigitsValue(id), name))
  {
    assert '.' !in id by { assert !IsDigit('.'); }
    ParseOfKey(id, name);
  }

  /** Exactly which texts are read, and as what. */
  lemma ParseMeans(s: string)
    ensures ParseEventType(s).Some? <==> exists id, name :: IsKey(s, id, name)
    ensures forall id, name | IsKey(s, id, name) :: ParseEventType(s) == Some(Event(DigitsValue(id), name))
  {
    forall id, name | IsKey(s, id, name)
      ensures ParseEventType(s) == Some(Event(DigitsValue(id), name))
    {
      KeyIsParsed(s, id, name);
    }
    if ParseEventType(s).Some? {
      var rest := s[|PREFIX|..];
      var dot := IndexOf(rest, '.');
      var id, name := rest[..dot], rest[dot + 1..];
      assert rest == id + "." + name;
      assert s == PREFIX + rest;
      assert s == PREFIX + id + "." + name;
      assert IsKey(s, id, name);
    }
  }

  /** What the worker prints for an id of 64 bits is such a key. */
  lemma PrintsKey(connID: nat, name: string)
    requires connID <= MAX_UINT64 && name != ""
    ensures IsKey(RoutingKey(connID, name), PrintNat(connID), name) && DigitsValue(PrintNat(connID)) == connID
  {
    ValueOfPrint(connID);
  }

  /** What the backend reads from any key the worker prints. */
  lemma ParsePrinted(connID: int, name: string)
    ensures ParseEventType(RoutingKey(connID, name))
            == if 0 <= connID <= MAX_UINT64 && name != "" then Some(Event(connID, name)) else None
  {
    hide ParseUint, PrintInt, ParseEventType;
    ParseOfPrint(connID);
    ParseOfKey(PrintInt(connID), name);
  }

  /** The key round-trips exactly for an unsigned 64-bit id and a non-empty name, dots included. */
  lemma RoundTrip(connID: int, name: string)
    ensures (exists e :: ParseEventType(RoutingKey(connID, name)) == Some(e)
                         && e.id == connID && e.name == name)
            <==> 0 <= connID <= MAX_UINT64 && name != ""
  {
    ParsePrinted(connID, name);
    if 0 <= connID <= MAX_UINT64 && name != "" {
      assert Event(connID, name).id == connID;
    }
  }

  lemma SignedIsNegative(a: int, b: int)
    requires a < 0 && PrintInt(a) == PrintInt(b)
    ensures b < 0
  {
    assert PrintInt(a)[0] == '-';
    assert b >= 0 ==> PrintNat(b)[0] in PrintNat(b);
  }

  /** The decimal forms of two integers differ, signs included. */
  lemma PrintIsInjective(a: int, b: int)
    requires PrintInt(a) == PrintInt(b)
    ensures a == b
  {
    var s := PrintInt(a);
    assert s[0] in s;
    if a < 0 {
      SignedIsNegative(a, b);
      assert s[1..] == PrintNat(-a) && PrintInt(b)[1..] == PrintNat(-b);
      ValueOfPrint(-a);
      ValueOfPrint(-b);
    } else {
      assert IsDigit(s[0]);
      ValueOfPrint(a);
      ValueOfPrint(b);
    }
  }

  /** The first dot after the prefix ends the id. */
  lemma KeySplits(a: string, name1: string, b: string, name2: string)
    requires '.' !in a && '.' !in b && PREFIX + a + "." + name1 == PREFIX + b + "." + name2
    ensures a == b && name1 == name2
  {
    var x, y := PREFIX + a + "." + name1, PREFIX + b + "." + name2;
    var restA, restB := a + ("." + name1), b + ("." + name2);
    assert x[|PREFIX|..] == restA && y[|PREFIX|..] == restB;
    IndexOfConcat(a, "." + name1, '.');
    IndexOfConcat(b, "." + name2, '.');
    assert restA[..|a|] == a && restB[..|b|] == b;
    assert restA[|a| + 1..] == name1 && restB[|b| + 1..] == name2;
  }

  /** Two worker events never share a key, whatever their ids: the dots in names cause no confusion. */
  lemma KeysAreInjective(id1: int, name1: string, id2: int, name2: string)
    requires RoutingKey(id1, name1) == RoutingKey(id2, name2)
    ensures id1 == id2 && name1 == name2
  {
    var a, b := PrintInt(id1), PrintInt(id2);
    ParseOfPrint(id1);
    ParseOfPrint(id2);
    KeySplits(a, name1, b, name2);
    PrintIsInjective(id1, id2);
  }
}
