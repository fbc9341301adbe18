/** Intervals such as 15m, read from text into milliseconds. */
module Intervals {
  import opened Prelude
  import opened Text

  const UNITS := {'s', 'm', 'h', 'd'}

  function UnitMs(unit: char): nat
    requires unit in UNITS
  {
    if unit == 's' then 1000 else if unit == 'm' then 60000 else if unit == 'h' then 3600000 else 86400000
  }

  predicate IsDigit(c: char) { '0' <= c <= '9' }

  /** The value of a string of digits, nothing for any other string. */
  function Digits(s: string): (r: Option<nat>)
    ensures r.Some? <==> s != "" && forall i :: 0 <= i < |s| ==> '0' <= s[i] <= '9'
  {
    if s == "" then None
    else
      var c := s[|s| - 1];
      if !IsDigit(c) then None
      else if |s| == 1 then Some((c - '0') as nat)
      else
        var front := Digits(s[..|s| - 1]);
        if front.None? then None else Some(front.value * 10 + (c - '0') as nat)
  }

  /** Reads a whole number: digits with an optional sign, spaces around them. */
  function ParseInt(text: string): Option<int> {
    var s := Strip(text);
    if s != "" && (s[0] == '-' || s[0] == '+') then
      var n := Digits(s[1..]);
      if n.None? then None else
      var value: int := n.value;
      Some(if s[0] == '-' then -value else value)
    else
      var n := Digits(s);
      if n.None? then None else Some(n.value)
  }

  /** `n` of a unit in milliseconds. */
  function InUnits(n: nat, unit: char): (r: Result<nat>)
    requires n > 0
    ensures r.Ok? <==> unit in UNITS
    ensures r.Ok? ==> r.value == n * UnitMs(unit) && r.value >= 1000
  {
    if unit == 's' then Ok(n * 1000)
    else if unit == 'm' then Ok(n * 60000)
    else if unit == 'h' then Ok(n * 3600000)
    else if unit == 'd' then Ok(n * 86400000)
    else Raised("unsupported interval unit")
  }

  /** Digits count by tens. */
  lemma DigitsCount(s: string, c: char)
    requires Digits(s).Some? && '0' <= c <= '9'
    ensures Digits(s + [c]) == Some(10 * Digits(s).value + (c as int - '0' as int))
    ensures Digits([c]) == Some(c as int - '0' as int)
  {
    assert (s + [c])[..|s|] == s;
  }

  /** A sign in front of a number keeps its size. */
  lemma SignsCount(s: string)
    requires Digits(s).Some?
    ensures ParseInt(s) == Some(Digits(s).value)
    ensures ParseInt("+" + s) == Some(Digits(s).value)
    ensures ParseInt("-" + s) == Some(-(Digits(s).value as int))
  {
    hide Digits, Strip;
    assert '0' <= s[0] <= '9' && '0' <= s[|s| - 1] <= '9';
    assert Strip(s) == s && Strip("+" + s) == "+" + s && Strip("-" + s) == "-" + s;
    assert ("+" + s)[1..] == s && ("-" + s)[1..] == s;
  }

  /** The step of an interval: a positive whole number and a known unit, anything
      else raises. */
  function IntervalStepMs(interval: string): (r: Result<nat>) {
    var text := Lower(Strip(interval));
    if |text| < 2 then Raised("invalid interval")
    else
      var value := ParseInt(text[..|text| - 1]);
      if value.None? || value.value <= 0 then Raised("invalid interval")
      else InUnits(value.value, text[|text| - 1])
  }

  /** The decimal digits of a number. */
  function Decimal(n: nat): (s: string)
    ensures s != "" && forall i :: 0 <= i < |s| ==> IsDigit(s[i])
  {
    var last := ['0' + (n % 10) as char];
    if n < 10 then last else Decimal(n / 10) + last
  }

  lemma {:induction false} DigitsOfDecimal(n: nat)
    ensures Digits(Decimal(n)) == Some(n)
  {
    var s := Decimal(n);
    if n >= 10 {
      DigitsOfDecimal(n / 10);
      assert s[..|s| - 1] == Decimal(n / 10);
    }
  }

  /** A number and a unit written out are read back as exactly that many units,
      in upper case and with spaces around them too. */
  lemma StepOfWritten(n: nat, unit: char, interval: string)
    requires n > 0 && unit in {'s', 'm', 'h', 'd'}
    requires Lower(Strip(interval)) == Decimal(n) + [unit]
    ensures IntervalStepMs(interval) ==
              Ok(n * (if unit == 's' then 1000 else if unit == 'm' then 60 * 1000
                      else if unit == 'h' then 60 * 60 * 1000 else 24 * 60 * 60 * 1000))
  {
    hide Strip, Lower, Decimal, ParseInt;
    var text := Decimal(n) + [unit];
    assert text[..|text| - 1] == Decimal(n);
    ParsesBack(n);
  }

  lemma ParsesBack(n: nat)
    ensures ParseInt(Decimal(n)) == Some(n)
  {
    DigitsOfDecimal(n);
    hide Strip, Digits, Decimal;
    assert IsDigit(Decimal(n)[0]) && IsDigit(Decimal(n)[|Decimal(n)| - 1]);
    assert Strip(Decimal(n)) == Decimal(n);
  }

  /** An interval raises exactly if it is not a positive number followed by a unit,
      and is at least a second otherwise. */
  lemma StepRaisesIff(interval: string)
    ensures IntervalStepMs(interval).Ok? ==> IntervalStepMs(interval).value >= 1000
    ensures var text := Lower(Strip(interval));
            IntervalStepMs(interval).Raised? <==>
              !(|text| >= 2 && text[|text| - 1] in {'s', 'm', 'h', 'd'}
                && ParseInt(text[..|text| - 1]).Some? && ParseInt(text[..|text| - 1]).value > 0)
  {
    hide Strip, Lower, ParseInt;
  }

  /** Sixty minutes are an hour and 24 hours a day, however they are written. */
  lemma SameLengthSameStep(n: nat, a: string, b: string, c: string, d: string)
    requires n > 0
    requires Lower(Strip(a)) == Decimal(60 * n) + ['m'] && Lower(Strip(b)) == Decimal(n) + ['h']
    requires Lower(Strip(c)) == Decimal(24 * n) + ['h'] && Lower(Strip(d)) == Decimal(n) + ['d']
    ensures IntervalStepMs(a) == IntervalStepMs(b) && IntervalStepMs(c) == IntervalStepMs(d)
  {
    hide IntervalStepMs, Decimal, Strip, Lower;
    StepOfWritten(60 * n, 'm', a);
    StepOfWritten(n, 'h', b);
    StepOfWritten(24 * n, 'h', c);
    StepOfWritten(n, 'd', d);
  }
}
