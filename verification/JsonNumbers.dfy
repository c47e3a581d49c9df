/** Integers as decimal digits: strconv.ParseInt and strconv.AppendInt, as far as JSON uses them
    (std/json/decode.go:179-193, std/json/encode.go:266-267). */
module JsonNumbers {
  import opened Wrappers
  import opened JsonScanner
  import opened JsonGrammar

  predicate Int64(n: int) { -0x8000_0000_0000_0000 <= n < 0x8000_0000_0000_0000 }

  type int64 = n: int | Int64(n)

  function Digit(n: nat): char
    requires n < 10
  {
    '0' + n as char
  }

  function DigitValue(c: char): nat { if IsDigit(c) then c as int - '0' as int else 0 }

  function DigitsValue(t: Text): nat {
    if t == [] then 0 else DigitsValue(t[..|t| - 1]) * 10 + DigitValue(t[|t| - 1])
  }

  /** None when it is not an integer or does not fit. */
  function ParseInt(t: Text): Option<int> {
    var neg := t != [] && t[0] == '-';
    var digits := if t != [] && (t[0] == '-' || t[0] == '+') then t[1..] else t;
    if digits == [] || !AllDigits(digits) then None
    else
      var size: int := DigitsValue(digits);
      var n := if neg then -size else size;
      if Int64(n) then Some(n) else None
  }

  function Decimal(n: nat): Text { if n < 10 then [Digit(n)] else Decimal(n / 10) + [Digit(n % 10)] }

  function AppendInt(n: int): Text { if n < 0 then "-" + Decimal(-n) else Decimal(n) }

  lemma {:induction false} DecimalIs(n: nat)
    ensures IntOk(Decimal(n)) && AllDigits(Decimal(n)) && DigitsValue(Decimal(n)) == n
    ensures n > 0 ==> Decimal(n)[0] != '0'
  {
    if n < 10 {
      assert [Digit(n)][..0] == [];
    } else {
      DecimalIs(n / 10);
      var t := Decimal(n / 10) + [Digit(n % 10)];
      assert t[..|t| - 1] == Decimal(n / 10);
    }
  }

  /** Every int64 comes back, the smallest included, and its text is a JSON number without fraction and
      exponent. */
  lemma IntRoundTrip(n: int)
    requires Int64(n)
    ensures ParseInt(AppendInt(n)) == Some(n)
    ensures forall c <- AppendInt(n) :: IsDigit(c) || c == '-'
  {
    hide Decimal, DigitsValue;
    DecimalIs(if n < 0 then -n else n);
    if n < 0 {
      NegativeBack(Decimal(-n), -n);
    } else {
      assert Decimal(n)[0] in Decimal(n);
    }
  }

  lemma NegativeBack(t: Text, n: int)
    requires n > 0 && t != [] && AllDigits(t) && DigitsValue(t) == n && Int64(-n)
    ensures ParseInt("-" + t) == Some(-n)
  {
    hide DigitsValue, AllDigits;
    var s := "-" + t;
    assert s[0] == '-' && s[1..] == t;
  }
}
