/** Tax rates as objects and as text (src/aliquota.cc). Percentages are reals;
    formatting rounds to hundredths. */
module Rates {
  import opened Text
  import opened TaxTable
  import opened Writer

  datatype RateError = NoError | Malformed | OutOfRange | UnknownType | PercentOutOfRange

  predicate KnownType(tipo: char) {
    tipo in {'S', 'T', 'F', 'N', 'I'}
  }

  // ------------------------------------------------------------ C conversions

  /** How many digits s starts with. */
  function DigitRun(s: string): (k: nat)
    ensures k <= |s| && (forall i :: 0 <= i < k ==> IsDigit(s[i])) && (k < |s| ==> !IsDigit(s[k]))
  {
    if s == "" || !IsDigit(s[0]) then 0 else 1 + DigitRun(s[1..])
  }

  function Unsigned(s: string): string {
    if s != "" && (s[0] == '-' || s[0] == '+') then s[1..] else s
  }

  predicate Negative(s: string) {
    s != "" && s[0] == '-'
  }

  function Atoi(s: string): int {
    var t := LTrim(s);
    var u := Unsigned(t);
    var n: int := Number(u[..DigitRun(u)]);
    if Negative(t) then -n else n
  }

  function Pow10(k: nat): nat {
    if k == 0 then 1 else 10 * Pow10(k - 1)
  }

  lemma {:induction false} Pow10Positive(k: nat)
    ensures Pow10(k) > 0
  {
    if k > 0 {
      Pow10Positive(k - 1);
    }
  }

  function Fraction(s: string): real
    requires forall i :: 0 <= i < |s| ==> IsDigit(s[i])
  {
    Pow10Positive(|s|);
    Number(s) as real / Pow10(|s|) as real
  }

  /** Decimal numbers without an exponent. */
  function Atof(s: string): real {
    var t := LTrim(s);
    var u := Unsigned(t);
    var k := DigitRun(u);
    var f := if k < |u| && u[k] == '.' then u[k + 1..] else "";
    var x := Number(u[..k]) as real + Fraction(f[..DigitRun(f)]);
    if Negative(t) then -x else x
  }

  lemma {:induction false} NumberOfDigits(n: nat)
    ensures Number(Digits(n)) == n
  {
    if n < 10 {
      assert Digits(n)[..0] == "";
    } else {
      var s := Digits(n);
      NumberOfDigits(n / 10);
      assert s[..|s| - 1] == Digits(n / 10) && s[|s| - 1] == Digit(n % 10);
    }
  }

  lemma RunOfDigits(s: string, rest: string)
    requires forall i :: 0 <= i < |s| ==> IsDigit(s[i])
    requires rest == "" || !IsDigit(rest[0])
    ensures DigitRun(s + rest) == |s| && (s + rest)[..|s|] == s
  {
    var k := DigitRun(s + rest);
    assert forall i :: 0 <= i < |s| ==> (s + rest)[i] == s[i];
    assert rest != "" ==> (s + rest)[|s|] == rest[0];
  }

  lemma {:induction false} LTrimOff(lead: string, s: string)
    requires AllSpace(lead) && (s != "" ==> !IsSpace(s[0]))
    ensures LTrim(lead + s) == s
  {
    if lead == "" {
      assert lead + s == s;
    } else {
      assert (lead + s)[1..] == lead[1..] + s;
      LTrimOff(lead[1..], s);
    }
  }

  /** atoi on blanks, a sign and digits, with anything behind them. */
  lemma AtoiReads(lead: string, digits: string, rest: string)
    requires AllSpace(lead) && IsNumber(digits) && (rest != "" ==> !IsDigit(rest[0]))
    ensures Atoi(lead + (digits + rest)) == Number(digits)
    ensures Atoi(lead + ("-" + (digits + rest))) == 0 - Number(digits)
  {
    var s := digits + rest;
    var t := "-" + s;
    assert s[0] == digits[0] && IsDigit(s[0]) && t[0] == '-';
    RunOfDigits(digits, rest);
    hide Number;
    hide DigitRun;
    LTrimOff(lead, s);
    LTrimOff(lead, t);
    AtoiOf(lead + s, s, digits);
    AtoiOf(lead + t, s, digits);
  }

  lemma AtoiWhole(digits: string)
    requires IsNumber(digits)
    ensures Atoi(digits) == Number(digits) && Atoi("-" + digits) == 0 - Number(digits)
  {
    hide *;
    NothingAround(digits);
    NothingAround("-" + digits);
    AtoiReads("", digits, "");
  }

  lemma NothingAround(s: string)
    ensures AllSpace("") && "" + s == s && s + "" == s
  {
  }

  lemma AtoiOf(text: string, s: string, digits: string)
    requires IsNumber(digits) && s != "" && IsDigit(s[0]) && s[..DigitRun(s)] == digits
    requires LTrim(text) == s || LTrim(text) == "-" + s
    ensures Atoi(text) == if LTrim(text) == s then Number(digits) else 0 - Number(digits)
  {
    hide Number;
    hide DigitRun;
    hide LTrim;
    assert ("-" + s)[1..] == s;
  }

  /** atof on blanks, digits, a point and digits, with anything behind them. */
  lemma AtofReads(lead: string, a: string, b: string, rest: string)
    requires AllSpace(lead) && IsNumber(a) && IsNumber(b) && (rest != "" ==> !IsDigit(rest[0]))
    ensures Pow10(|b|) > 0
    ensures Atof(lead + (a + ("." + (b + rest)))) == Number(a) as real + Number(b) as real / Pow10(|b|) as real
  {
    var f := b + rest;
    var s := a + ("." + f);
    assert s[0] == a[0] && IsDigit(s[0]) && s[|a|] == '.' && s[|a| + 1..] == f;
    RunOfDigits(a, "." + f);
    RunOfDigits(b, rest);
    Pow10Positive(|b|);
    hide Number;
    hide DigitRun;
    hide Pow10;
    hide Atof;
    hide LTrim;
    LTrimOff(lead, s);
    AtofOf(lead + s, s, a, b);
  }

  lemma AtofWhole(a: string, b: string)
    requires IsNumber(a) && IsNumber(b)
    ensures Pow10(|b|) > 0 && Atof(a + "." + b) == Number(a) as real + Number(b) as real / Pow10(|b|) as real
  {
    hide *;
    NothingAround(b);
    NothingAround(a + ("." + b));
    AtofReads("", a, b, "");
    assert a + "." + b == a + ("." + b);
  }

  lemma AtofOf(text: string, s: string, a: string, b: string)
    requires IsNumber(a) && IsNumber(b) && s != "" && IsDigit(s[0]) && LTrim(text) == s
    requires var k := DigitRun(s); s[..k] == a && k < |s| && s[k] == '.' && s[k + 1..][..DigitRun(s[k + 1..])] == b
    ensures Pow10(|b|) > 0 && Atof(text) == Number(a) as real + Number(b) as real / Pow10(|b|) as real
  {
    Pow10Positive(|b|);
    hide Number;
    hide DigitRun;
    hide Pow10;
    hide LTrim;
  }

  // ------------------------------------------------------------------ the text

  /** %02d */
  function TwoPlaces(n: nat): (s: string)
    ensures IsNumber(s)
  {
    if n < 10 then "0" + Digits(n) else Digits(n)
  }

  function Pair(n: nat): (s: string)
    requires n < 100
    ensures |s| == 2 && IsNumber(s) && Number(s) == n
  {
    var s := [Digit(n / 10), Digit(n % 10)];
    TwoDigits(s);
    s
  }

  /** A rate of n hundredths with two places on either side of the point. */
  function Fixed(n: nat): string
    requires n < 10000
  {
    Pair(n / 100) + "." + Pair(n % 100)
  }

  function Squeezed(s: string): string {
    if s == "" then ""
    else Squeezed(s[..|s| - 1]) + (if IsSpace(s[|s| - 1]) then "" else [s[|s| - 1]])
  }

  lemma {:induction false} SqueezedPlain(s: string)
    requires forall i :: 0 <= i < |s| ==> !IsSpace(s[i])
    ensures Squeezed(s) == s
  {
    if s != "" {
      SqueezedPlain(s[..|s| - 1]);
    }
  }

  function Hundreds(aliq: real): int {
    (aliq * 100.0 + 0.5).Floor
  }

  class AliquotaObject {
    var tipo: char
    var cst: nat     // 16 bits
    var aliq: real

    ghost predicate Valid()
      reads this
    {
      KnownType(tipo) && cst < 65536 && 0.0 <= aliq <= 99.99
    }

    constructor ()
      ensures Valid() && tipo == 'T' && cst == 0 && aliq == 0.0
    {
      tipo, cst, aliq := 'T', 0, 0.0;
    }

    /** set(tipo, cst, pcent): a percentage out of range is noticed after type
        and CST have been stored. */
    method Set(t: char, c: nat, pcent: real) returns (error: RateError)
      requires c < 65536
      modifies this
      ensures error == (if !KnownType(t) then UnknownType
                        else if pcent < 0.0 || pcent > 99.99 then PercentOutOfRange else NoError)
      ensures error == NoError ==> Valid() && tipo == t && cst == c && aliq == pcent
      ensures error == PercentOutOfRange ==> tipo == t && cst == c && aliq == old(aliq)
      ensures error == UnknownType ==> tipo == old(tipo) && cst == old(cst) && aliq == old(aliq)
    {
      if t != 'S' && t != 'T' && t != 'F' && t != 'N' && t != 'I' {
        return UnknownType;
      }
      tipo := t;
      cst := c;
      if pcent < 0.0 || pcent > 99.99 {
        return PercentOutOfRange;
      }
      aliq := pcent;
      return NoError;
    }

    /** get_raw: what strfmon gives, without its blanks. */
    method GetRaw() returns (raw: string)
      requires Valid()
      ensures raw == Fixed(Hundreds(aliq))
    {
      FixedHasNoBlanks(Hundreds(aliq));
      var buff: string :| Squeezed(buff) == Fixed(Hundreds(aliq));
      raw := "";
      var i := 0;
      while i < |buff|
        invariant 0 <= i <= |buff| && raw == Squeezed(buff[..i])
      {
        assert buff[..i + 1][..i] == buff[..i];
        if !IsSpace(buff[i]) {
          raw := raw + [buff[i]];
        }
        i := i + 1;
      }
      assert buff[..i] == buff;
    }

    /** get_raw_numbers: the four digits. */
    method GetRawNumbers() returns (s: string)
      requires Valid()
      ensures s == Pair(Hundreds(aliq) / 100) + Pair(Hundreds(aliq) % 100)
    {
      var obj := GetRaw();
      var n := Hundreds(aliq);
      PointAt2(n);
      var pos := Find(obj, ".");
      s := obj;
      if pos != -1 {
        s := obj[..pos];
        s := s + obj[pos + 1..];
      }
    }

    method GetSerialized() returns (s: string)
      requires Valid()
      ensures s == Serialized(tipo, cst, Hundreds(aliq))
    {
      var numbers := GetRawNumbers();
      s := [tipo] + ":" + TwoPlaces(cst) + ":" + numbers;
    }

    /** set(str). */
    method Parse(str: string) returns (error: RateError)
      modifies this
      ensures var p := Parsed(str);
              && (p.Bad? ==> error == p.error && tipo == old(tipo) && cst == old(cst) && aliq == old(aliq))
              && (p.Good? && KnownType(p.tipo) && 0.0 <= p.pcent <= 99.99 ==>
                    error == NoError && Valid() && tipo == p.tipo && cst == p.cst && aliq == p.pcent)
              && (p.Good? && !KnownType(p.tipo) ==> error == UnknownType)
              && (p.Good? && KnownType(p.tipo) && !(0.0 <= p.pcent <= 99.99) ==> error == PercentOutOfRange)
    {
      hide Atoi;
      hide Atof;
      var sep1 := Find(str, ":");
      var sep2 := RFind(str, ":");
      if sep1 == -1 || sep2 == -1 || sep1 == sep2 {
        return Malformed;
      }
      if sep1 == 0 || sep2 + 3 > |str| {
        return OutOfRange;
      }
      var tmp := str[sep2 + 1..sep2 + 3];
      tmp := tmp + ".";
      tmp := tmp + str[sep2 + 3..];
      error := Set(str[sep1 - 1], Atoi(str[sep1 + 1..sep2]) % 65536, Atof(tmp));
    }
  }

  datatype ParseResult = Bad(error: RateError) | Good(tipo: char, cst: nat, pcent: real)

  /** What set(str) makes of a text before it checks type and range. */
  function Parsed(str: string): (p: ParseResult)
    ensures p.Good? ==> p.cst < 65536
  {
    var sep1 := Find(str, ":");
    var sep2 := RFind(str, ":");
    if sep1 == -1 || sep2 == -1 || sep1 == sep2 then Bad(Malformed)
    else
      assert OccursAt(str, ":", sep1) && OccursAt(str, ":", sep2);
      if sep1 == 0 || sep2 + 3 > |str| then Bad(OutOfRange)
      else
        Good(str[sep1 - 1], Atoi(str[sep1 + 1..sep2]) % 65536, Atof(str[sep2 + 1..sep2 + 3] + "." + str[sep2 + 3..]))
  }

  function Serialized(tipo: char, cst: nat, n: nat): string
    requires n < 10000
  {
    [tipo] + ":" + TwoPlaces(cst) + ":" + (Pair(n / 100) + Pair(n % 100))
  }

  lemma FixedHasNoBlanks(n: nat)
    requires n < 10000
    ensures Squeezed(Fixed(n)) == Fixed(n)
  {
    SqueezedPlain(Fixed(n));
  }

  lemma PointAt2(n: nat)
    requires n < 10000
    ensures Find(Fixed(n), ".") == 2
    ensures Fixed(n)[..2] == Pair(n / 100) && Fixed(n)[3..] == Pair(n % 100)
  {
    var s := Fixed(n);
    ContainsChar(s, '.');
    assert s[2] == '.' && OccursAt(s, ".", 2);
    assert IsDigit(s[0]) && IsDigit(s[1]);
  }

  lemma AtoiOfPlaces(n: nat)
    ensures Atoi(TwoPlaces(n)) == n
  {
    var s := TwoPlaces(n);
    AtoiWhole(s);
    NumberOfDigits(n);
    if n < 10 {
      TwoDigits(s);
    }
  }

  lemma TwoPlacesBehind(x: nat, y: nat, p: nat)
    requires p == Pow10(2)
    ensures p == 100 && x as real + y as real / p as real == (100 * x + y) as real / 100.0
  {
    assert Pow10(1) == 10 && Pow10(0) == 1;
  }

  /** What is parsed of any text with two colons, the first of them behind some
      character and two characters at least behind the last: the character before
      the first colon, the number between the two and that behind the last. */
  lemma ParsedOf(before: string, tipo: char, between: string, a: string, b: string)
    requires ':' !in before && tipo != ':' && ':' !in a + b && |a| == 2
    ensures Parsed(before + [tipo] + ":" + between + ":" + a + b)
         == Good(tipo, Atoi(between) % 65536, Atof(a + "." + b))
  {
    hide *;
    var s := before + [tipo] + ":" + between + ":" + a + b;
    ColonsOf(before + [tipo], between, a + b);
    PartsOf(before, tipo, between, a, b);
    ParsedAt(s, |before| + 1, |before| + 2 + |between|);
  }

  lemma PartsOf(before: string, tipo: char, between: string, a: string, b: string)
    requires |a| == 2
    ensures var s, i, j := before + [tipo] + ":" + between + ":" + a + b, |before| + 1, |before| + 2 + |between|;
            && s == before + [tipo] + ":" + between + ":" + (a + b) && |s| == j + 3 + |b|
            && s[i - 1] == tipo && s[i + 1..j] == between && s[j + 1..j + 3] == a && s[j + 3..] == b
  {
  }

  lemma ParsedAt(s: string, i: nat, j: nat)
    requires 1 <= i < j && j + 3 <= |s| && Find(s, ":") == i && RFind(s, ":") == j
    ensures Parsed(s) == Good(s[i - 1], Atoi(s[i + 1..j]) % 65536, Atof(s[j + 1..j + 3] + "." + s[j + 3..]))
  {
    hide Atoi;
    hide Atof;
    hide Find;
    hide RFind;
  }

  lemma ColonsOf(before: string, between: string, behind: string)
    requires ':' !in before && ':' !in behind
    ensures var s := before + ":" + between + ":" + behind;
            Find(s, ":") == |before| && RFind(s, ":") == |before| + 1 + |between|
  {
    var s := before + ":" + between + ":" + behind;
    var i, j := |before|, |before| + 1 + |between|;
    assert s[i..i + 1] == ":" && s[j..j + 1] == ":";
    assert OccursAt(s, ":", i) && OccursAt(s, ":", j);
    assert forall k :: 0 <= k < i ==> s[k] == before[k];
    assert forall k :: j < k < |s| ==> s[k] == behind[k - j - 1];
    forall k | OccursAt(s, ":", k) ensures s[k] == ':' {
      assert s[k] == s[k..k + 1][0];
    }
  }

  /** A text is malformed exactly if it has no two colons. */
  lemma MalformedIff(str: string)
    ensures Parsed(str) == Bad(Malformed) <==> !exists i, j :: 0 <= i < j < |str| && str[i] == ':' && str[j] == ':'
  {
    var first, last := Find(str, ":"), RFind(str, ":");
    forall i | 0 <= i < |str| ensures OccursAt(str, ":", i) <==> str[i] == ':' {
      assert str[i..i + 1] == [str[i]];
    }
    hide Atoi;
    hide Atof;
    hide Find;
    hide RFind;
    if first >= 0 {
      assert OccursAt(str, ":", first) && OccursAt(str, ":", last);
    }
  }

  /** The serialised text, character by character. */
  lemma SerializedAt(tipo: char, cst: nat, n: nat)
    requires cst < 100 && n < 10000
    ensures Serialized(tipo, cst, n)
         == [tipo, ':', Digit(cst / 10), Digit(cst % 10), ':',
             Digit(n / 1000), Digit(n / 100 % 10), Digit(n / 10 % 10), Digit(n % 10)]
  {
    PlacesAt(cst);
    PairsAt(n);
    hide *;
    SerializedIs(tipo, cst, n);
  }

  lemma PlacesAt(n: nat)
    requires n < 100
    ensures TwoPlaces(n) == [Digit(n / 10), Digit(n % 10)]
  {
    assert Digits(n) == if n < 10 then [Digit(n)] else [Digit(n / 10)] + [Digit(n % 10)];
  }

  lemma PairsAt(n: nat)
    requires n < 10000
    ensures Pair(n / 100) == [Digit(n / 1000), Digit(n / 100 % 10)]
    ensures Pair(n % 100) == [Digit(n / 10 % 10), Digit(n % 10)]
  {
    FourPlaces(n);
    hide Number;
  }

  lemma FourPlaces(n: nat)
    ensures n / 100 / 10 == n / 1000 && n % 100 / 10 == n / 10 % 10 && n % 100 % 10 == n % 10
  {
    var a, r := n / 1000, n % 1000;
    var b, t := r / 100, r % 100;
    var c, d := t / 10, t % 10;
    FourDigits(a, b, c, d);
  }

  lemma FourDigits(a: nat, b: nat, c: nat, d: nat)
    requires b < 10 && c < 10 && d < 10
    ensures var n := 1000 * a + 100 * b + 10 * c + d;
            && n / 1000 == a && n / 100 == 10 * a + b && n % 100 == 10 * c + d && n % 10 == d
            && n / 10 == 100 * a + 10 * b + c && n / 10 % 10 == c && n / 100 / 10 == a && n % 100 / 10 == c
            && n % 100 % 10 == d
  {
    var n := 1000 * a + 100 * b + 10 * c + d;
    assert n == 100 * (10 * a + b) + (10 * c + d);
    assert n == 10 * (100 * a + 10 * b + c) + d;
  }

  /** The rate as strfmon shows it, and the hundredths it shows: the nearest, half
      a hundredth going up. */
  lemma HundredsAreNearest(aliq: real, n: nat)
    requires n < 10000
    ensures Hundreds(aliq) == n <==> n as real - 0.5 <= 100.0 * aliq < n as real + 0.5
    ensures Fixed(n) == [Digit(n / 1000), Digit(n / 100 % 10), '.', Digit(n / 10 % 10), Digit(n % 10)]
  {
    PairsAt(n);
    hide Pair;
  }

  lemma RateIsExact(n: nat)
    requires n < 10000
    ensures 0.0 <= n as real / 100.0 <= 99.99
    ensures Hundreds(n as real / 100.0) == n
  {
    assert n as real / 100.0 * 100.0 == n as real;
  }

  lemma NoColons(cst: nat, n: nat)
    requires n < 10000
    ensures ':' !in TwoPlaces(cst) && ':' !in Pair(n / 100) + Pair(n % 100)
  {
    assert !IsDigit(':');
  }

  lemma AtofOfRate(n: nat)
    requires n < 10000
    ensures Atof(Pair(n / 100) + "." + Pair(n % 100)) == n as real / 100.0
  {
    WholeAndRest(n);
    AtofOfPlaces(Pair(n / 100), Pair(n % 100), n / 100, n % 100, n);
    hide *;
  }

  lemma AtofOfPlaces(a: string, b: string, x: nat, y: nat, n: nat)
    requires IsNumber(a) && IsNumber(b) && |b| == 2 && Number(a) == x && Number(b) == y && 100 * x + y == n
    ensures Atof(a + "." + b) == n as real / 100.0
  {
    var p := Pow10(|b|);
    AtofWhole(a, b);
    hide *;
    TwoPlacesBehind(x, y, p);
  }

  lemma WholeAndRest(n: nat)
    ensures 100 * (n / 100) + n % 100 == n
  {
  }

  lemma ColonIsNoType(tipo: char)
    requires KnownType(tipo)
    ensures tipo != ':'
  {
  }

  lemma NothingBefore(tipo: char, mid: string, a: string, b: string)
    ensures "" + [tipo] + ":" + mid + ":" + a + b == [tipo] + ":" + mid + ":" + (a + b)
  {
  }

  lemma SerializedIs(tipo: char, cst: nat, n: nat)
    requires n < 10000
    ensures Serialized(tipo, cst, n) == [tipo] + ":" + TwoPlaces(cst) + ":" + (Pair(n / 100) + Pair(n % 100))
  {
    hide TwoPlaces;
    hide Pair;
  }

  /** For every type, every CST and every rate of hundredths, parsing the text of
      a rate gives the rate back: the same type, CST and hundredths, which is all
      that a lookup in the table goes by. */
  lemma RateRoundTrip(tipo: char, cst: nat, n: nat)
    requires KnownType(tipo) && cst < 65536 && n < 10000
    ensures Parsed(Serialized(tipo, cst, n)) == Good(tipo, cst, n as real / 100.0)
    ensures 0.0 <= n as real / 100.0 <= 99.99
    ensures Hundreds(n as real / 100.0) == n
  {
    hide *;
    NoColons(cst, n);
    AtoiOfPlaces(cst);
    AtofOfRate(n);
    RateIsExact(n);
    ColonIsNoType(tipo);
    SerializedIs(tipo, cst, n);
    ParsedOf("", tipo, TwoPlaces(cst), Pair(n / 100), Pair(n % 100));
    NothingBefore(tipo, TwoPlaces(cst), Pair(n / 100), Pair(n % 100));
    assert cst % 65536 == cst;
  }

  // ------------------------------------------------------ the printer's table

  /** Numbers as the printer writes them. */
  function Indices(xs: seq<nat>): (fs: seq<string>)
    ensures |fs| == |xs| && forall i :: 0 <= i < |xs| ==> fs[i] == TwoPlaces(xs[i])
  {
    seq(|xs|, i requires 0 <= i < |xs| => TwoPlaces(xs[i]))
  }

  function Quads(rs: seq<nat>): (fs: seq<string>)
    requires forall i :: 0 <= i < |rs| ==> rs[i] < 10000
    ensures |fs| == |rs| && forall i :: 0 <= i < |rs| ==> fs[i] == Pair(rs[i] / 100) + Pair(rs[i] % 100)
  {
    seq(|rs|, i requires 0 <= i < |rs| => Pair(rs[i] / 100) + Pair(rs[i] % 100))
  }

  lemma NumberOfPlaces(n: nat)
    ensures IsNumber(TwoPlaces(n)) && Number(TwoPlaces(n)) == n && ',' !in TwoPlaces(n)
  {
    NumberOfDigits(n);
    if n < 10 {
      TwoDigits(TwoPlaces(n));
    }
    assert !IsDigit(',');
  }

  lemma NumberOfQuad(n: nat)
    requires n < 10000
    ensures var f := Pair(n / 100) + Pair(n % 100); GoodRate(f) && Number(f) == n && ',' !in f
  {
    var a, b := Pair(n / 100), Pair(n % 100);
    assert (a + b)[..2] == a && (a + b)[2..] == b;
    assert GoodRate(a + b);
    RateAsNumber(a + b);
    var text := a + "." + b;
    assert text[..2] == a && text[3..] == b;
    assert !IsDigit(',');
    hide Number;
    hide Pair;
  }

  lemma MarkedByIndex(xs: seq<nat>, offset: nat, x: nat)
    ensures Marked(Indices(xs), offset, x) <==> exists k :: 0 <= k < |xs| && xs[k] + offset == x
  {
    forall k | 0 <= k < |xs| ensures IsNumber(Indices(xs)[k]) && Number(Indices(xs)[k]) == xs[k] {
      NumberOfPlaces(xs[k]);
    }
    hide Number;
    hide IsNumber;
  }

  /** When the printer lists ISS indices and rates as numbers, the table has one
      entry for each rate, in order, of type ISS exactly if its place, less the
      offset, is listed. */
  lemma TableOfPrinted(m: map<int, Aliquot>, xs: seq<nat>, rs: seq<nat>, offset: nat)
    requires xs != [] && rs != [] && forall i :: 0 <= i < |rs| ==> rs[i] < 10000
    requires Describes(m, Fields(JoinFields(Indices(xs))), Fields(JoinFields(Quads(rs))), offset)
    ensures forall x :: x in m <==> 0 <= x < |rs|
    ensures forall x :: 0 <= x < |rs| ==>
      m[x] == Aliquot(if exists k :: 0 <= k < |xs| && xs[k] + offset == x then 'S' else 'T', 0, rs[x])
  {
    forall i | 0 <= i < |xs| ensures ',' !in Indices(xs)[i] { NumberOfPlaces(xs[i]); }
    forall i | 0 <= i < |rs| ensures GoodRate(Quads(rs)[i]) && Number(Quads(rs)[i]) == rs[i] && ',' !in Quads(rs)[i] {
      NumberOfQuad(rs[i]);
    }
    hide Fields;
    hide GoodRate;
    hide Number;
    FieldsOfJoin(Indices(xs));
    FieldsOfJoin(Quads(rs));
    forall x: nat ensures Marked(Indices(xs), offset, x) <==> exists k :: 0 <= k < |xs| && xs[k] + offset == x {
      MarkedByIndex(xs, offset, x);
    }
    hide Marked;
    hide JoinFields;
  }
}
