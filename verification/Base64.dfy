/** Standard base64 with padding (section 4 of RFC 4648), as Go's base64.StdEncoding does it. */
module Base64 {
  import opened Wrappers

  type Byte = n: int | 0 <= n < 256

  /** The alphabet: the character of a six-bit value. */
  function Symbol(v: int): char
    requires 0 <= v < 64
  {
    if v < 26 then ('A' as int + v) as char
    else if v < 52 then ('a' as int + v - 26) as char
    else if v < 62 then ('0' as int + v - 52) as char
    else if v == 62 then '+' else '/'
  }

  /** The six-bit value of a character, if it is in the alphabet. */
  function Value(c: char): (v: Option<int>)
    ensures v.Some? ==> 0 <= v.value < 64 && Symbol(v.value) == c
  {
    if 'A' <= c <= 'Z' then Some(c as int - 'A' as int)
    else if 'a' <= c <= 'z' then Some(c as int - 'a' as int + 26)
    else if '0' <= c <= '9' then Some(c as int - '0' as int + 52)
    else if c == '+' then Some(62) else if c == '/' then Some(63) else None
  }

  function Encode(d: seq<Byte>): string {
    if |d| == 0 then ""
    else if |d| == 1 then [Symbol(d[0] / 4), Symbol(d[0] % 4 * 16), '=', '=']
    else if |d| == 2 then
      [Symbol(d[0] / 4), Symbol(d[0] % 4 * 16 + d[1] / 16), Symbol(d[1] % 16 * 4), '=']
    else
      [Symbol(d[0] / 4), Symbol(d[0] % 4 * 16 + d[1] / 16),
       Symbol(d[1] % 16 * 4 + d[2] / 64), Symbol(d[2] % 64)] + Encode(d[3..])
  }

  /** DecodeString skips carriage returns and line feeds wherever they stand. */
  function StripNewlines(s: string): string {
    if s == "" then ""
    else (if s[0] == '\r' || s[0] == '\n' then [] else [s[0]]) + StripNewlines(s[1..])
  }

  function Byte0(a: int, b: int): Byte
    requires 0 <= a < 64 && 0 <= b < 64
  { a * 4 + b / 16 }

  function Byte1(b: int, c: int): Byte
    requires 0 <= b < 64 && 0 <= c < 64
  { b % 16 * 16 + c / 4 }

  function Byte2(c: int, d: int): Byte
    requires 0 <= c < 64 && 0 <= d < 64
  { c % 4 * 64 + d }

  /** Groups of four; padding only in the last group. Unused low bits are not checked. */
  function DecodeGroups(s: string): Option<seq<Byte>> {
    if s == "" then Some([])
    else if |s| < 4 || Value(s[0]).None? || Value(s[1]).None? then None
    else
      var a, b := Value(s[0]).value, Value(s[1]).value;
      if s[2] == '=' then
        if |s| == 4 && s[3] == '=' then Some([Byte0(a, b)]) else None
      else if Value(s[2]).None? then None
      else
        var c := Value(s[2]).value;
        if s[3] == '=' then
          if |s| == 4 then Some([Byte0(a, b), Byte1(b, c)]) else None
        else if Value(s[3]).None? then None
        else
          var d := Value(s[3]).value;
          match DecodeGroups(s[4..])
          case None => None
          case Some(rest) => Some([Byte0(a, b), Byte1(b, c), Byte2(c, d)] + rest)
  }

  function Decode(s: string): Option<seq<Byte>> { DecodeGroups(StripNewlines(s)) }

  predicate InEncoding(c: char) { Value(c).Some? || c == '=' }

  /** The alphabet of the standard: capitals, small letters, digits, plus and slash. */
  lemma SymbolsInOrder()
    ensures Symbol(0) == 'A' && Symbol(25) == 'Z' && Symbol(26) == 'a' && Symbol(51) == 'z'
    ensures Symbol(52) == '0' && Symbol(61) == '9' && Symbol(62) == '+' && Symbol(63) == '/'
    ensures forall v :: 0 <= v < 61 && v != 25 && v != 51 ==> Symbol(v + 1) as int == Symbol(v) as int + 1
  {
  }

  lemma ValueOfSymbol(v: int)
    requires 0 <= v < 64
    ensures Value(Symbol(v)) == Some(v) && Symbol(v) != '='
  {
  }

  lemma {:induction false} GroupRoundTrip(x: Byte, y: Byte, z: Byte)
    ensures Byte0(x / 4, x % 4 * 16 + y / 16) == x
    ensures Byte1(x % 4 * 16 + y / 16, y % 16 * 4 + z / 64) == y
    ensures Byte2(y % 16 * 4 + z / 64, z % 64) == z
  {
    assert (x % 4 * 16 + y / 16) / 16 == x % 4;
    assert (x % 4 * 16 + y / 16) % 16 == y / 16;
    assert (y % 16 * 4 + z / 64) / 4 == y % 16;
    assert (y % 16 * 4 + z / 64) % 4 == z / 64;
  }

  /** One full group decodes to its three bytes, in front of whatever the rest decodes to. */
  lemma {:induction false} DecodeFullGroup(x: Byte, y: Byte, z: Byte, rest: string)
    ensures var s := [Symbol(x / 4), Symbol(x % 4 * 16 + y / 16),
                      Symbol(y % 16 * 4 + z / 64), Symbol(z % 64)] + rest;
            DecodeGroups(s) == match DecodeGroups(rest)
                               case None => None
                               case Some(bytes) => Some([x, y, z] + bytes)
  {
    var s := [Symbol(x / 4), Symbol(x % 4 * 16 + y / 16),
              Symbol(y % 16 * 4 + z / 64), Symbol(z % 64)] + rest;
    assert s[4..] == rest;
    ValueOfSymbol(x / 4);
    ValueOfSymbol(x % 4 * 16 + y / 16);
    ValueOfSymbol(y % 16 * 4 + z / 64);
    ValueOfSymbol(z % 64);
    GroupRoundTrip(x, y, z);
  }

  lemma DecodeOneByte(d: seq<Byte>)
    requires |d| == 1
    ensures DecodeGroups(Encode(d)) == Some(d)
  {
    var a, b := d[0] / 4, d[0] % 4 * 16;
    ValueOfSymbol(a);
    ValueOfSymbol(b);
    assert Byte0(a, b) == d[0] by { GroupRoundTrip(d[0], 0, 0); }
    assert Encode(d) == [Symbol(a), Symbol(b), '=', '='];
    assert d == [d[0]];
  }

  lemma DecodeTwoBytes(d: seq<Byte>)
    requires |d| == 2
    ensures DecodeGroups(Encode(d)) == Some(d)
  {
    var a, b, c := d[0] / 4, d[0] % 4 * 16 + d[1] / 16, d[1] % 16 * 4;
    ValueOfSymbol(a);
    ValueOfSymbol(b);
    ValueOfSymbol(c);
    assert Byte0(a, b) == d[0] && Byte1(b, c) == d[1] by { GroupRoundTrip(d[0], d[1], 0); }
    assert Encode(d) == [Symbol(a), Symbol(b), Symbol(c), '='];
    assert d == [d[0], d[1]];
  }

  /** Decoding undoes encoding for every byte string. */
  lemma {:induction false} DecodeGroupsEncode(d: seq<Byte>)
    ensures DecodeGroups(Encode(d)) == Some(d)
  {
    if |d| == 0 {
    } else if |d| == 1 {
      DecodeOneByte(d);
    } else if |d| == 2 {
      DecodeTwoBytes(d);
    } else {
      assert d == [d[0], d[1], d[2]] + d[3..];
      DecodeGroupsEncode(d[3..]);
      hide DecodeGroups, Symbol;
      DecodeFullGroup(d[0], d[1], d[2], Encode(d[3..]));
    }
  }

  lemma {:induction false} EncodeLength(d: seq<Byte>)
    ensures |Encode(d)| == (|d| + 2) / 3 * 4
    decreases |d|
  {
    hide Symbol;
    if |d| <= 2 {
    } else {
      EncodeLength(d[3..]);
      assert |Encode(d)| == 4 + |Encode(d[3..])|;
      assert (|d| + 2) / 3 == (|d| - 3 + 2) / 3 + 1;
    }
  }

  /** The value of a symbol at a place of a text. */
  function At(s: string, i: int): int {
    if 0 <= i < |s| && Value(s[i]).Some? then Value(s[i]).value else 0
  }

  /** Four six-bit groups hold the bits of three bytes. */
  lemma SplitBits(x: int, y: int, z: int)
    requires 0 <= x < 256 && 0 <= y < 256 && 0 <= z < 256
    ensures (((x / 4) * 64 + (x % 4 * 16 + y / 16)) * 64 + (y % 16 * 4 + z / 64)) * 64 + z % 64
            == (x * 256 + y) * 256 + z
  {
  }

  /** The values of the symbols written for a group; a shorter group is padded. */
  lemma GroupValues(d: seq<Byte>)
    requires d != []
    ensures var s := Encode(d);
            var x, y, z := d[0], if |d| > 1 then d[1] else 0, if |d| > 2 then d[2] else 0;
            && |s| >= 4
            && At(s, 0) == x / 4 && At(s, 1) == x % 4 * 16 + y / 16
            && (if |d| > 1 then At(s, 2) == y % 16 * 4 + z / 64 else s[2] == '=')
            && (if |d| > 2 then At(s, 3) == z % 64 else s[3] == '=')
  {
    hide Symbol, Value;
    var x, y, z := d[0], if |d| > 1 then d[1] else 0, if |d| > 2 then d[2] else 0;
    ValueOfSymbol(x / 4);
    ValueOfSymbol(x % 4 * 16 + y / 16);
    ValueOfSymbol(y % 16 * 4 + z / 64);
    ValueOfSymbol(z % 64);
  }

  /** The bits of three bytes are the bits of four symbols; a shorter group is padded. */
  lemma EncodeBits(d: seq<Byte>)
    ensures |Encode(d)| == (|d| + 2) / 3 * 4
    ensures |d| >= 3 ==> Encode(d)[4..] == Encode(d[3..])
    ensures var s := Encode(d);
            && (|d| >= 3 ==>
                  ((At(s, 0) * 64 + At(s, 1)) * 64 + At(s, 2)) * 64 + At(s, 3)
                  == (d[0] as int * 256 + d[1] as int) * 256 + d[2] as int)
            && (|d| == 2 ==>
                  (At(s, 0) * 64 + At(s, 1)) * 64 + At(s, 2) == (d[0] as int * 256 + d[1] as int) * 4 && s[3] == '=')
            && (|d| == 1 ==> At(s, 0) * 64 + At(s, 1) == d[0] as int * 16 && s[2] == '=' && s[3] == '=')
  {
    EncodeLength(d);
    if |d| >= 3 {
      assert Encode(d)[4..] == Encode(d[3..]);
    }
    hide Encode, At;
    if d != [] {
      GroupValues(d);
      SplitBits(d[0], if |d| > 1 then d[1] else 0, if |d| > 2 then d[2] else 0);
    }
  }

  lemma {:induction false} EncodeStaysInAlphabet(d: seq<Byte>)
    ensures forall c :: c in Encode(d) ==> InEncoding(c)
  {
    if |d| == 0 {
    } else {
      var x, y, z := d[0], if |d| > 1 then d[1] else 0, if |d| > 2 then d[2] else 0;
      ValueOfSymbol(x / 4);
      ValueOfSymbol(x % 4 * 16 + y / 16);
      ValueOfSymbol(y % 16 * 4 + z / 64);
      ValueOfSymbol(z % 64);
      if |d| > 2 { EncodeStaysInAlphabet(d[3..]); }
    }
  }

  lemma {:induction false} StripNothing(s: string)
    requires forall c :: c in s ==> InEncoding(c)
    ensures StripNewlines(s) == s
  {
    if s == "" {
    } else {
      assert s[0] in s;
      forall c | c in s[1..] ensures InEncoding(c) { assert c in s; }
      StripNothing(s[1..]);
      assert s == [s[0]] + s[1..];
    }
  }

  lemma DecodeEncode(d: seq<Byte>)
    ensures Decode(Encode(d)) == Some(d)
  {
    EncodeStaysInAlphabet(d);
    StripNothing(Encode(d));
    DecodeGroupsEncode(d);
  }

  lemma {:induction false} StripKeeps(s: string, c: char)
    requires c in s && c != '\r' && c != '\n'
    ensures c in StripNewlines(s)
  {
    if s[0] == c {
    } else {
      assert s == [s[0]] + s[1..];
      StripKeeps(s[1..], c);
    }
  }

  lemma {:induction false} DecodeGroupsRejects(s: string, c: char)
    requires c in s && !InEncoding(c)
    ensures DecodeGroups(s).None?
  {
    if |s| < 4 {
    } else if c in s[..4] {
      assert s[..4] == [s[0], s[1], s[2], s[3]];
      assert c in [s[0], s[1], s[2], s[3]];
    } else {
      assert s == s[..4] + s[4..];
      DecodeGroupsRejects(s[4..], c);
    }
  }

  /** A character outside the alphabet, padding and newlines makes decoding fail. */
  lemma DecodeRejects(s: string, c: char)
    requires c in s && !InEncoding(c) && c != '\r' && c != '\n'
    ensures Decode(s).None?
  {
    StripKeeps(s, c);
    DecodeGroupsRejects(StripNewlines(s), c);
  }
}
