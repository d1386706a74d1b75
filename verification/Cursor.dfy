/**
 The opaque page cursor: "micros:id" in decimal, in unpadded base64url (section 5 of RFC 4648).
 A token is a sequence of bytes. Decoding accepts what Go's strconv and base64 packages accept.
 */
module Cursor {
  import opened Basics

  // ---------- base64url without padding ----------

  function Symbol(v: int): byte
    requires 0 <= v < 64
  {
    if v < 26 then v + 65
    else if v < 52 then v - 26 + 97
    else if v < 62 then v - 52 + 48
    else if v == 62 then 45
    else 95
  }

  /** The value of a symbol of the alphabet. */
  function SymbolValue(c: byte): Option<int> {
    if 65 <= c <= 90 then Some(c - 65)
    else if 97 <= c <= 122 then Some(c - 97 + 26)
    else if 48 <= c <= 57 then Some(c - 48 + 52)
    else if c == 45 then Some(62)
    else if c == 95 then Some(63)
    else None
  }

  function EncodeBytes(bs: seq<byte>): seq<byte> {
    if bs == [] then []
    else if |bs| == 1 then [Symbol(bs[0] / 4), Symbol(bs[0] % 4 * 16)]
    else if |bs| == 2 then [Symbol(bs[0] / 4), Symbol(bs[0] % 4 * 16 + bs[1] / 16), Symbol(bs[1] % 16 * 4)]
    else
      [Symbol(bs[0] / 4), Symbol(bs[0] % 4 * 16 + bs[1] / 16), Symbol(bs[1] % 16 * 4 + bs[2] / 64), Symbol(bs[2] % 64)] +
      EncodeBytes(bs[3..])
  }

  /** Line breaks are skipped wherever they are. */
  function WithoutBreaks(s: seq<byte>): seq<byte> {
    if s == [] then []
    else if s[0] == 10 || s[0] == 13 then WithoutBreaks(s[1..])
    else [s[0]] + WithoutBreaks(s[1..])
  }

  function Values(s: seq<byte>): Option<seq<int>> {
    if s == [] then Some([])
    else
      match (SymbolValue(s[0]), Values(s[1..]))
      case (Some(v), Some(rest)) => Some([v] + rest)
      case _ => None
  }

  predicate Sextets(vs: seq<int>) {
    forall i :: 0 <= i < |vs| ==> 0 <= vs[i] < 64
  }

  /** Four values make three bytes; the bits left over at the end are ignored. */
  function Join(vs: seq<int>): Option<seq<byte>>
    requires Sextets(vs)
  {
    if vs == [] then Some([])
    else if |vs| == 1 then None
    else
      var a: byte := vs[0] * 4 + vs[1] / 16;
      if |vs| == 2 then Some([a])
      else
        var b: byte := vs[1] % 16 * 16 + vs[2] / 4;
        if |vs| == 3 then Some([a, b])
        else
          var c: byte := vs[2] % 4 * 64 + vs[3];
          match Join(vs[4..])
          case Some(rest) => Some([a, b, c] + rest)
          case None => None
  }

  lemma {:induction false} ValuesAreSextets(s: seq<byte>)
    ensures Values(s).Some? ==> Sextets(Values(s).value) && |Values(s).value| == |s|
  {
    if s != [] {
      ValuesAreSextets(s[1..]);
    }
  }

  function DecodeBytes(s: seq<byte>): Option<seq<byte>> {
    var t := WithoutBreaks(s);
    ValuesAreSextets(t);
    match Values(t)
    case Some(vs) => Join(vs)
    case None => None
  }

  lemma SymbolRoundTrip(v: int)
    requires 0 <= v < 64
    ensures SymbolValue(Symbol(v)) == Some(v) && Symbol(v) != 10 && Symbol(v) != 13
  {
  }

  /** The sextets of some bytes. */
  function Split(bs: seq<byte>): (vs: seq<int>)
    ensures Sextets(vs)
  {
    if bs == [] then []
    else if |bs| == 1 then [bs[0] / 4, bs[0] % 4 * 16]
    else if |bs| == 2 then [bs[0] / 4, bs[0] % 4 * 16 + bs[1] / 16, bs[1] % 16 * 4]
    else [bs[0] / 4, bs[0] % 4 * 16 + bs[1] / 16, bs[1] % 16 * 4 + bs[2] / 64, bs[2] % 64] + Split(bs[3..])
  }

  lemma ThreeBytes(x: byte, y: byte, z: byte)
    ensures
      var (a, b, c, d) := (x / 4, x % 4 * 16 + y / 16, y % 16 * 4 + z / 64, z % 64);
      a * 4 + b / 16 == x && b % 16 * 16 + c / 4 == y && c % 4 * 64 + d == z
  {
  }

  lemma JoinFour(x: byte, y: byte, z: byte, rest: seq<int>)
    requires Sextets(rest) && Join(rest).Some?
    ensures
      var vs := [x / 4, x % 4 * 16 + y / 16, y % 16 * 4 + z / 64, z % 64] + rest;
      Sextets(vs) && Join(vs) == Some([x, y, z] + Join(rest).value)
  {
    var vs := [x / 4, x % 4 * 16 + y / 16, y % 16 * 4 + z / 64, z % 64] + rest;
    ThreeBytes(x, y, z);
    assert vs[4..] == rest;
  }

  lemma JoinFewer(x: byte, y: byte)
    ensures Join([]) == Some([]) && Join([x / 4, x % 4 * 16]) == Some([x])
    ensures Join([x / 4, x % 4 * 16 + y / 16, y % 16 * 4]) == Some([x, y])
  {
    ThreeBytes(x, 0, 0);
    ThreeBytes(x, y, 0);
  }

  lemma {:induction false} JoinSplit(bs: seq<byte>)
    ensures Join(Split(bs)) == Some(bs)
  {
    hide Join, Sextets;
    if |bs| >= 3 {
      JoinSplit(bs[3..]);
      JoinFour(bs[0], bs[1], bs[2], Split(bs[3..]));
      assert bs == [bs[0], bs[1], bs[2]] + bs[3..];
    } else if |bs| == 2 {
      JoinFewer(bs[0], bs[1]);
      assert bs == [bs[0], bs[1]];
    } else if |bs| == 1 {
      JoinFewer(bs[0], 0);
      assert bs == [bs[0]];
    } else {
      JoinFewer(0, 0);
    }
  }

  function Symbols(vs: seq<int>): seq<byte>
    requires Sextets(vs)
  {
    if vs == [] then [] else [Symbol(vs[0])] + Symbols(vs[1..])
  }

  lemma {:induction false} SymbolsRoundTrip(vs: seq<int>)
    requires Sextets(vs)
    ensures Values(Symbols(vs)) == Some(vs) && WithoutBreaks(Symbols(vs)) == Symbols(vs)
  {
    if vs != [] {
      SymbolsRoundTrip(vs[1..]);
      SymbolRoundTrip(vs[0]);
      assert Symbols(vs)[1..] == Symbols(vs[1..]);
      assert vs == [vs[0]] + vs[1..];
    }
  }

  lemma {:induction false} SymbolsConcat(a: seq<int>, b: seq<int>)
    requires Sextets(a) && Sextets(b)
    ensures Sextets(a + b) && Symbols(a + b) == Symbols(a) + Symbols(b)
  {
    if a == [] {
      assert a + b == b;
    } else {
      SymbolsConcat(a[1..], b);
      assert (a + b)[1..] == a[1..] + b && (a + b)[0] == a[0];
    }
  }

  lemma {:induction false} EncodeIsSymbols(bs: seq<byte>)
    ensures EncodeBytes(bs) == Symbols(Split(bs))
  {
    if |bs| >= 3 {
      EncodeIsSymbols(bs[3..]);
      var head := [bs[0] / 4, bs[0] % 4 * 16 + bs[1] / 16, bs[1] % 16 * 4 + bs[2] / 64, bs[2] % 64];
      SymbolsConcat(head, Split(bs[3..]));
      SymbolsAt(head);
    } else if |bs| == 2 {
      SymbolsAt(Split(bs));
    } else if |bs| == 1 {
      SymbolsAt(Split(bs));
    }
  }

  lemma {:induction false} SymbolsAt(vs: seq<int>)
    requires Sextets(vs)
    ensures |Symbols(vs)| == |vs| && forall i :: 0 <= i < |vs| ==> Symbols(vs)[i] == Symbol(vs[i])
  {
    if vs != [] {
      SymbolsAt(vs[1..]);
      forall i | 0 <= i < |vs| ensures Symbols(vs)[i] == Symbol(vs[i]) {
        assert i > 0 ==> vs[i] == vs[1..][i - 1];
      }
    }
  }

  /** Base64 loses nothing. */
  lemma Base64RoundTrip(bs: seq<byte>)
    ensures DecodeBytes(EncodeBytes(bs)) == Some(bs)
  {
    EncodeIsSymbols(bs);
    SymbolsRoundTrip(Split(bs));
    JoinSplit(bs);
  }

  // ---------- signed decimal ----------

  predicate Digit(c: byte) {
    48 <= c <= 57
  }

  function Digits(n: nat): (s: seq<byte>)
    ensures s != [] && forall i :: 0 <= i < |s| ==> Digit(s[i])
  {
    if n < 10 then [n + 48] else Digits(n / 10) + [n % 10 + 48]
  }

  function FormatInt(n: int): seq<byte> {
    if n < 0 then [45] + Digits(-n) else Digits(n)
  }

  function DigitsValue(s: seq<byte>): Option<nat> {
    if s == [] then Some(0)
    else if !Digit(s[|s| - 1]) then None
    else
      match DigitsValue(s[..|s| - 1])
      case Some(n) => Some(10 * n + (s[|s| - 1] - 48) as int)
      case None => None
  }

  /** Base ten, an optional sign, at least one digit, and a value of 64 bits. */
  function ParseInt(s: seq<byte>): Option<int> {
    if s == [] then None
    else
      var negative := s[0] == 45;
      var digits := if s[0] == 45 || s[0] == 43 then s[1..] else s;
      if digits == [] then None
      else
        match DigitsValue(digits)
        case None => None
        case Some(n) =>
          var v: int := if negative then -(n as int) else n;
          if FitsInt64(v) then Some(v) else None
  }

  lemma {:induction false} DigitsRoundTrip(n: nat)
    ensures DigitsValue(Digits(n)) == Some(n)
  {
    var s := Digits(n);
    if n < 10 {
      assert s[..|s| - 1] == [];
    } else {
      DigitsRoundTrip(n / 10);
      assert s[..|s| - 1] == Digits(n / 10);
    }
  }

  lemma DecimalRoundTrip(n: int)
    ensures ParseInt(FormatInt(n)) == if FitsInt64(n) then Some(n) else None
  {
    hide Digits, DigitsValue;
    if n < 0 {
      DigitsRoundTrip(-n);
      assert FormatInt(n)[1..] == Digits(-n);
    } else {
      DigitsRoundTrip(n);
      assert Digit(Digits(n)[0]);
    }
  }

  // ---------- the cursor ----------

  datatype Position = Position(micros: int, id: int)

  const MIN_MICROS: int := -210_866_803_200_000_000

  function Encode(c: Position): seq<byte> {
    EncodeBytes(FormatInt(c.micros) + [58] + FormatInt(c.id))
  }

  /** The text before and after the first colon. */
  function CutAtColon(s: seq<byte>): Option<(seq<byte>, seq<byte>)> {
    if s == [] then None
    else if s[0] == 58 then Some(([], s[1..]))
    else
      match CutAtColon(s[1..])
      case Some((a, b)) => Some(([s[0]] + a, b))
      case None => None
  }

  function Decode(token: seq<byte>): Option<Position> {
    match DecodeBytes(token)
    case None => None
    case Some(raw) =>
      match CutAtColon(raw)
      case None => None
      case Some((micros, id)) =>
        match ParseInt(micros)
        case None => None
        case Some(us) =>
          if us < MIN_MICROS then None
          else
            match ParseInt(id)
            case None => None
            case Some(n) => if n <= 0 then None else Some(Position(us, n))
  }

  /** What Postgres can hold and a row can have. */
  predicate InRange(c: Position) {
    -210_866_803_200_000_000 <= c.micros <= MAX_INT64 && 0 < c.id <= MAX_INT64
  }

  lemma {:induction false} CutJoined(a: seq<byte>, b: seq<byte>)
    requires 58 !in a
    ensures CutAtColon(a + [58] + b) == Some((a, b))
  {
    var s := a + [58] + b;
    if a == [] {
      assert s[1..] == b;
    } else {
      CutJoined(a[1..], b);
      assert s[1..] == a[1..] + [58] + b && s[0] == a[0] && a == [a[0]] + a[1..];
    }
  }

  lemma NoColon(n: int)
    ensures 58 !in FormatInt(n)
  {
    var s := FormatInt(n);
    forall i | 0 <= i < |s| ensures s[i] != 58 {
      if n < 0 && i > 0 {
        assert s[i] == Digits(-n)[i - 1];
      }
    }
  }

  /** Section 10 of RFC 4648, and the two symbols of the URL-safe alphabet. */
  lemma KnownBase64()
    ensures EncodeBytes([102]) == [90, 103] && EncodeBytes([102, 111]) == [90, 109, 56]
    ensures EncodeBytes([102, 111, 111]) == [90, 109, 57, 118] && EncodeBytes([0xfb, 0xff]) == [45, 95, 56]
  {
  }

  lemma KnownDecimals()
    ensures FormatInt(0) == [48] && FormatInt(907) == [57, 48, 55] && FormatInt(-12) == [45, 49, 50]
  {
    assert Digits(907) == Digits(90) + [55] && Digits(90) == Digits(9) + [48] && Digits(12) == Digits(1) + [50];
  }

  /** A token spells the microseconds and the id in decimal, with a colon between them. */
  lemma TokenSpells(c: Position)
    ensures DecodeBytes(Encode(c)) == Some(FormatInt(c.micros) + [58] + FormatInt(c.id))
  {
    hide FormatInt, EncodeBytes, DecodeBytes;
    Base64RoundTrip(FormatInt(c.micros) + [58] + FormatInt(c.id));
  }

  /** A token decodes to the cursor it was made from exactly when the cursor is in range. */
  lemma CursorRoundTrip(c: Position)
    ensures Decode(Encode(c)) == if InRange(c) then Some(c) else None
  {
    var micros, id := FormatInt(c.micros), FormatInt(c.id);
    Base64RoundTrip(micros + [58] + id);
    NoColon(c.micros);
    CutJoined(micros, id);
    DecimalRoundTrip(c.micros);
    DecimalRoundTrip(c.id);
  }

  /** Whatever a client sends, what is accepted is in range. */
  lemma AcceptedIsInRange(token: seq<byte>)
    ensures Decode(token).Some? ==> InRange(Decode(token).value)
  {
  }

  // ---------- what is refused ----------

  lemma {:induction false} CutIs(s: seq<byte>)
    ensures CutAtColon(s) == None <==> 58 !in s
    ensures CutAtColon(s).Some? ==>
              var (a, b) := CutAtColon(s).value;
              58 !in a && s == a + [58] + b
  {
    if s != [] && s[0] != 58 {
      CutIs(s[1..]);
      assert s == [s[0]] + s[1..];
    }
  }

  /** The text has this timestamp before its first colon and this id behind it. */
  ghost predicate Says(raw: seq<byte>, a: seq<byte>, b: seq<byte>, c: Position) {
    raw == a + [58] + b && 58 !in a && ParseInt(a) == Some(c.micros) && ParseInt(b) == Some(c.id)
  }

  /** Exactly the tokens that are base64 of two decimals in range with a colon between them are
      accepted, as what they say. */
  lemma AcceptedExactly(token: seq<byte>, c: Position)
    ensures Decode(token) == Some(c) <==>
              InRange(c) && DecodeBytes(token).Some? && exists a, b :: Says(DecodeBytes(token).value, a, b, c)
  {
    hide DecodeBytes, ParseInt, CutAtColon;
    AcceptedIsInRange(token);
    if DecodeBytes(token).Some? {
      var raw := DecodeBytes(token).value;
      CutIs(raw);
      if CutAtColon(raw).Some? {
        var (a, b) := CutAtColon(raw).value;
        assert Decode(token) == Some(c) ==> Says(raw, a, b, c);
      }
      if a, b :| Says(raw, a, b, c) {
        CutJoined(a, b);
      }
    }
  }

  lemma {:induction false} OnlyDigits(s: seq<byte>)
    ensures DigitsValue(s).Some? ==> forall i :: 0 <= i < |s| ==> Digit(s[i])
  {
    if s != [] {
      OnlyDigits(s[..|s| - 1]);
    }
  }

  /** A decimal is digits, at least one, with a sign in front of them or none. */
  lemma OnlyDecimalsParse(s: seq<byte>)
    ensures ParseInt(s).Some? ==>
              s != [] && (forall i :: 1 <= i < |s| ==> Digit(s[i])) && (Digit(s[0]) || (|s| > 1 && (s[0] == 43 || s[0] == 45)))
  {
    hide DigitsValue;
    OnlyDigits(s);
    if s != [] {
      OnlyDigits(s[1..]);
      forall i | 1 <= i < |s| ensures s[i] == s[1..][i - 1] {
      }
    }
  }

  lemma {:induction false} OnlyValues(s: seq<byte>)
    ensures Values(s).Some? ==> forall i :: 0 <= i < |s| ==> SymbolValue(s[i]).Some?
  {
    if s != [] {
      OnlyValues(s[1..]);
    }
  }

  lemma {:induction false} KeptSymbols(s: seq<byte>, c: byte)
    ensures c in s && c != 10 && c != 13 ==> c in WithoutBreaks(s)
  {
    if s != [] {
      KeptSymbols(s[1..], c);
      assert s == [s[0]] + s[1..];
    }
  }

  /** A token has only symbols of the alphabet and line breaks. */
  lemma OnlySymbolsDecode(s: seq<byte>)
    ensures DecodeBytes(s).Some? ==> forall c :: c in s ==> SymbolValue(c).Some? || c == 10 || c == 13
  {
    hide Values, SymbolValue, WithoutBreaks, Join;
    OnlyValues(WithoutBreaks(s));
    forall c | c in s ensures c == 10 || c == 13 || c in WithoutBreaks(s) {
      KeptSymbols(s, c);
    }
  }
}
