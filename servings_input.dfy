/**
  The servings text box: `parseInt(e.target.value) || 0`. `parseInt` reads an
  optional sign and then the longest run of decimal digits; with no digit it
  yields NaN, which `|| 0` turns into 0 (as it does a parsed 0).
 */
module ServingsInput {

  datatype Option<T> = None | Some(value: T)

  predicate IsDigit(c: char)
  {
    '0' <= c <= '9'
  }

  ghost predicate AllDigits(s: string)
  {
    forall i :: 0 <= i < |s| ==> IsDigit(s[i])
  }

  /** The longest prefix of `s` made of decimal digits. */
  function LeadingDigits(s: string): (r: string)
    ensures r <= s
    ensures AllDigits(r)
    ensures |r| < |s| ==> !IsDigit(s[|r|])
  {
    if s != [] && IsDigit(s[0]) then [s[0]] + LeadingDigits(s[1..]) else []
  }

  /** The number a string of decimal digits denotes, most significant digit first. */
  function DigitsValue(ds: string): nat
    requires AllDigits(ds)
  {
    if ds == [] then 0
    else DigitsValue(ds[..|ds| - 1]) * 10 + ((ds[|ds| - 1] as int) - ('0' as int))
  }

  /** The text starts like a number: a digit, or a sign followed by a digit. */
  predicate StartsNumeral(text: string)
  {
    |text| > 0 &&
    (IsDigit(text[0]) || (|text| > 1 && (text[0] == '-' || text[0] == '+') && IsDigit(text[1])))
  }

  /**
    `parseInt(text)` in radix 10; `None` stands for NaN. It is a number exactly
    when the text starts like one, and negative only after a minus sign.
   */
  function ParseInt(text: string): (r: Option<int>)
    ensures r.Some? <==> StartsNumeral(text)
    ensures r.Some? && r.value < 0 ==> text[0] == '-'
  {
    var signed := |text| > 0 && (text[0] == '-' || text[0] == '+');
    var digits := LeadingDigits(if signed then text[1..] else text);
    var magnitude: int := if digits == [] then 0 else DigitsValue(digits);
    if digits == [] then None
    else if signed && text[0] == '-' then Some(-magnitude)
    else Some(magnitude)
  }

  /**
    `parseInt(text) || 0`: the count handed to `updateDishQuantity`. NaN and a
    parsed 0 both give 0; any other count is the parsed number.
   */
  function ParseServings(text: string): (r: int)
    ensures r == 0 <==> ParseInt(text) == None || ParseInt(text) == Some(0)
    ensures r != 0 ==> ParseInt(text) == Some(r)
  {
    match ParseInt(text)
    case None => 0
    case Some(n) => n
  }

  /** The decimal numeral of `n`, without sign or leading zeros. */
  function Decimal(n: nat): (s: string)
    ensures |s| >= 1 && AllDigits(s)
  {
    var last := ['0' + (n % 10) as char];
    if n < 10 then last else Decimal(n / 10) + last
  }

  lemma {:induction false} DigitsValueDecimal(n: nat)
    ensures DigitsValue(Decimal(n)) == n
  {
    var s := Decimal(n);
    if n >= 10 {
      DigitsValueDecimal(n / 10);
      assert s[..|s| - 1] == Decimal(n / 10);
    }
  }

  /** A run of digits followed by a non-digit (or by nothing) is read up to the non-digit. */
  lemma {:induction false} LeadingDigitsStop(ds: string, rest: string)
    requires AllDigits(ds)
    requires rest == [] || !IsDigit(rest[0])
    ensures LeadingDigits(ds + rest) == ds
  {
    if ds != [] {
      assert (ds + rest)[1..] == ds[1..] + rest;
      LeadingDigitsStop(ds[1..], rest);
    }
  }

  /**
    Reading back a numeral gives its number, whatever follows it after a
    non-digit: "12" and "12.7" and "12e3" all give 12.
   */
  lemma ParseServingsDecimal(n: nat, rest: string)
    requires rest == [] || !IsDigit(rest[0])
    ensures ParseServings(Decimal(n) + rest) == n
  {
    var text := Decimal(n) + rest;
    LeadingDigitsStop(Decimal(n), rest);
    DigitsValueDecimal(n);
    assert text[0] == Decimal(n)[0];
    assert ParseInt(text) == Some(n);
  }

  /** The same with a minus sign in front: "-3" gives -3, which removes the dish. */
  lemma ParseServingsNegativeDecimal(n: nat, rest: string)
    requires rest == [] || !IsDigit(rest[0])
    ensures ParseServings("-" + Decimal(n) + rest) == -(n as int)
  {
    var ds := Decimal(n);
    var text := "-" + ds + rest;
    assert text[0] == '-' && text[1..] == ds + rest;
    LeadingDigitsStop(ds, rest);
    DigitsValueDecimal(n);
    assert LeadingDigits(text[1..]) == ds;
  }

  /** Text with no digit after the optional sign is read as 0 servings. */
  lemma ParseServingsNoDigits(text: string)
    requires var body := if |text| > 0 && (text[0] == '-' || text[0] == '+') then text[1..] else text;
             body == [] || !IsDigit(body[0])
    ensures ParseServings(text) == 0
  {
  }

  /** A positive count is read only from text that starts with a digit or `+` and a digit. */
  lemma ParseServingsPositive(text: string)
    requires ParseServings(text) > 0
    ensures |text| > 0 && text[0] != '-'
    ensures IsDigit(text[0]) || (text[0] == '+' && |text| > 1 && IsDigit(text[1]))
  {
  }
}
