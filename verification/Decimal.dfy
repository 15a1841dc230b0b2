// Message ids on the wire: std::to_string on the way out, strtol and a conversion to unsigned long
// on the way in.
module Decimal {

  const WORD := 0x1_0000_0000_0000_0000
  const LONG_MAX := 0x7FFF_FFFF_FFFF_FFFF

  predicate IsDigit(c: char) { '0' <= c <= '9' }

  function DigitOf(c: char): nat
    requires IsDigit(c)
  {
    c as int - '0' as int
  }

  function CharOf(d: nat): (c: char)
    requires d < 10
    ensures IsDigit(c) && DigitOf(c) == d
  {
    ('0' as int + d) as char
  }

  function ToString(n: nat): (s: string)
    ensures s != [] && forall i :: 0 <= i < |s| ==> IsDigit(s[i])
  {
    if n < 10 then [CharOf(n)] else ToString(n / 10) + [CharOf(n % 10)]
  }

  // The digits at the front of s, read after acc.
  function Leading(s: string, acc: int): int {
    if s == [] || !IsDigit(s[0]) then acc else Leading(s[1..], acc * 10 + DigitOf(s[0]))
  }

  predicate IsSpace(c: char) { c == ' ' || '\t' <= c <= '\r' }

  function SkipSpace(s: string): string { if s == [] || !IsSpace(s[0]) then s else SkipSpace(s[1..]) }

  function Clamp(v: int): int {
    if v > LONG_MAX then LONG_MAX else if v < -LONG_MAX - 1 then -LONG_MAX - 1 else v
  }

  function Strtol(s: string): (v: int)
    ensures -LONG_MAX - 1 <= v <= LONG_MAX
  {
    var t := SkipSpace(s);
    if t != [] && t[0] == '-' then Clamp(-Leading(t[1..], 0))
    else if t != [] && t[0] == '+' then Clamp(Leading(t[1..], 0))
    else Clamp(Leading(t, 0))
  }

  function ParseId(s: string): nat {
    var v := Strtol(s);
    if v < 0 then v + WORD else v
  }

  lemma {:induction false} LeadingAppend(s: string, c: char, acc: int)
    requires IsDigit(c) && forall i :: 0 <= i < |s| ==> IsDigit(s[i])
    ensures Leading(s + [c], acc) == Leading(s, acc) * 10 + DigitOf(c)
  {
    if s == [] {
      assert ([c])[1..] == [];
    } else {
      assert (s + [c])[1..] == s[1..] + [c];
      LeadingAppend(s[1..], c, acc * 10 + DigitOf(s[0]));
    }
  }

  lemma {:induction false} DigitsRead(n: nat)
    ensures Leading(ToString(n), 0) == n
  {
    if n < 10 {
      assert ToString(n)[1..] == [];
    } else {
      DigitsRead(n / 10);
      LeadingAppend(ToString(n / 10), CharOf(n % 10), 0);
    }
  }

  // An id survives the trip through its decimal form exactly when it fits in a signed long.
  lemma {:induction false} IdSurvives(n: nat)
    ensures ParseId(ToString(n)) == n <==> n <= LONG_MAX
  {
    DigitsRead(n);
    assert IsDigit(ToString(n)[0]);
  }

  // ---- In terms of the ten digits and their places ----

  function Pow10(k: nat): (p: nat)
    ensures p > 0
  {
    if k == 0 then 1 else 10 * Pow10(k - 1)
  }

  // Where a character stands in s, or 0.
  function PlaceIn(s: string, c: char): nat {
    if s == "" then 0 else if s[|s| - 1] == c then |s| - 1 else PlaceIn(s[..|s| - 1], c)
  }

  function DigitPlace(c: char): nat { PlaceIn("0123456789", c) }

  // The sum over the first k characters of 10 to the number of those behind, times the place of the digit.
  function PlaceSum(s: string, k: nat): nat
    requires k <= |s|
  {
    if k == 0 then 0 else PlaceSum(s, k - 1) + Pow10(|s| - k) * DigitPlace(s[k - 1])
  }

  const ORDER := "0123456789"

  lemma OrderIs(i: nat)
    requires i < 10
    ensures |ORDER| == 10 && ORDER[i] == ('0' as int + i) as char
  {
    assert ORDER[0] == '0' && ORDER[1] == '1' && ORDER[2] == '2' && ORDER[3] == '3' && ORDER[4] == '4';
    assert ORDER[5] == '5' && ORDER[6] == '6' && ORDER[7] == '7' && ORDER[8] == '8' && ORDER[9] == '9';
  }

  lemma {:induction false} PlaceInPart(k: nat, c: char)
    requires k <= 10 && |ORDER| == 10 && IsDigit(c)
    ensures PlaceIn(ORDER[..k], c) == if DigitOf(c) < k then DigitOf(c) else 0
  {
    if k > 0 {
      OrderIs(k - 1);
      assert ORDER[..k][..k - 1] == ORDER[..k - 1];
      PlaceInPart(k - 1, c);
    }
  }

  lemma ReadAsPlace(c: char)
    requires IsDigit(c)
    ensures DigitOf(c) == DigitPlace(c)
  {
    OrderIs(0);
    PlaceInPart(10, c);
    assert ORDER[..10] == "0123456789";
  }

  lemma {:induction false} PlaceSumLonger(s: string, c: char, k: nat)
    requires k <= |s|
    ensures PlaceSum(s + [c], k) == 10 * PlaceSum(s, k)
    decreases k
  {
    hide DigitPlace;
    if k > 0 {
      PlaceSumLonger(s, c, k - 1);
      assert (s + [c])[k - 1] == s[k - 1];
      TenTimes(|s| - k, DigitPlace(s[k - 1]));
    }
  }

  lemma TenTimes(k: nat, d: nat)
    ensures Pow10(k + 1) * d == 10 * (Pow10(k) * d)
  {
  }

  predicate AllDigits(s: string) { forall i :: 0 <= i < |s| ==> '0' <= s[i] <= '9' }

  lemma {:induction false} ReadByPlaces(s: string)
    requires AllDigits(s)
    ensures Leading(s, 0) == PlaceSum(s, |s|)
  {
    hide DigitPlace;
    if s != "" {
      var less, c := s[..|s| - 1], s[|s| - 1];
      ReadByPlaces(less);
      assert s == less + [c];
      LeadingAppend(less, c, 0);
      PlaceSumLonger(less, c, |less|);
      ReadAsPlace(c);
      assert Pow10(0) == 1;
    }
  }

  // A number is written with the ten digits, the last one worth its place and each other one ten times
  // what is behind it, and with no zero in front.
  lemma {:induction false} WrittenByPlaces(n: nat)
    ensures var s := ToString(n);
            AllDigits(s) && PlaceSum(s, |s|) == n && (|s| > 1 ==> s[0] != '0')
  {
    hide DigitPlace, PlaceSum;
    DigitsRead(n);
    ReadByPlaces(ToString(n));
    FrontDigit(n);
  }

  lemma {:induction false} FrontDigit(n: nat)
    ensures n > 0 ==> ToString(n)[0] != '0'
  {
    if n >= 10 {
      FrontDigit(n / 10);
    }
  }

  // A number in a text: space in front, perhaps a sign, digits, and whatever is not a digit behind them.
  predicate Spaces(s: string) { forall i :: 0 <= i < |s| ==> s[i] in " \t\n" || s[i] as int in {11, 12, 13} }

  predicate Sign(s: string) { s == "" || s == "+" || s == "-" }

  predicate Tail(s: string) { s == "" || !('0' <= s[0] <= '9') }

  lemma {:induction false} LeadingStops(s: string, rest: string, acc: int)
    requires AllDigits(s) && Tail(rest)
    ensures Leading(s + rest, acc) == Leading(s, acc)
    decreases |s|
  {
    if s == "" {
      assert s + rest == rest;
    } else {
      assert (s + rest)[1..] == s[1..] + rest;
      LeadingStops(s[1..], rest, acc * 10 + DigitOf(s[0]));
    }
  }

  lemma {:induction false} SpaceSkipped(space: string, s: string)
    requires Spaces(space) && s != "" && !IsSpace(s[0])
    ensures SkipSpace(space + s) == s
    decreases |space|
  {
    if space == "" {
      assert space + s == s;
    } else {
      assert (space + s)[1..] == space[1..] + s && (space + s)[0] == space[0];
      SpaceSkipped(space[1..], s);
    }
  }

  function Least(a: nat, b: nat): nat { if a < b then a else b }

  lemma Front(sign: string, digits: string)
    requires Sign(sign) && digits != "" && AllDigits(digits)
    ensures var s := sign + digits; s != "" && !IsSpace(s[0]) && s[|sign|..] == digits
    ensures sign != "" ==> (sign + digits)[0] == sign[0]
    ensures sign == "" ==> sign + digits == digits && IsDigit(digits[0])
  {
    assert sign == "" ==> sign + digits == digits;
  }

  lemma {:induction false} SignedNumber(space: string, sign: string, digits: string)
    requires Spaces(space) && Sign(sign) && digits != "" && IsDigit(digits[0])
    requires SkipSpace(space + (sign + digits)) == sign + digits
    ensures Strtol(space + (sign + digits))
            == Clamp(if sign == "-" then -Leading(digits, 0) else Leading(digits, 0))
  {
    hide Leading, SkipSpace, Spaces;
    var t := sign + digits;
    assert t[|sign|..] == digits;
    assert sign == "" ==> t == digits;
  }

  lemma FirstKept(s: string, rest: string)
    requires s != ""
    ensures s + rest != "" && (s + rest)[0] == s[0]
  {
  }

  // The space and what follows the digits make no difference.
  lemma {:induction false} OnlyTheNumber(space: string, sign: string, digits: string, rest: string)
    requires Spaces(space) && Sign(sign) && digits != "" && AllDigits(digits) && Tail(rest)
    ensures var v := Leading(digits, 0);
            Strtol(space + (sign + (digits + rest))) == Clamp(if sign == "-" then -v else v)
  {
    LeadingStops(digits, rest, 0);
    assert sign + (digits + rest) == (sign + digits) + rest;
    FirstKept(sign + digits, rest);
    FirstKept(digits, rest);
    Front(sign, digits);
    SpaceSkipped(space, sign + (digits + rest));
    hide *;
    SignedNumber(space, sign, digits + rest);
  }

  lemma AsUnsigned(v: nat)
    ensures Clamp(v) == Least(v, LONG_MAX)
    ensures var w: int := Clamp(-(v as int)); (if w < 0 then w + WORD else w) == (WORD - Least(v, LONG_MAX + 1)) % WORD
  {
  }

  // Such a number is read as what its digits stand for, up to the largest signed long, or down to the
  // smallest one; a negative one comes out as its complement to 2^64.
  lemma {:induction false} ReadNumber(space: string, sign: string, digits: string, rest: string)
    requires Spaces(space) && Sign(sign) && digits != "" && AllDigits(digits) && Tail(rest)
    ensures var v := PlaceSum(digits, |digits|);
            ParseId(space + (sign + (digits + rest)))
            == if sign == "-" then (0x1_0000_0000_0000_0000 - Least(v, 0x8000_0000_0000_0000)) % 0x1_0000_0000_0000_0000
               else Least(v, 0x7FFF_FFFF_FFFF_FFFF)
  {
    hide PlaceSum, Leading, Strtol, Clamp, Least, AllDigits, Spaces, Tail, Sign;
    ReadByPlaces(digits);
    OnlyTheNumber(space, sign, digits, rest);
    AsUnsigned(Leading(digits, 0));
  }
}
