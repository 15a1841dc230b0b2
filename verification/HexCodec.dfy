// 128-bit numbers as 32 upper-case hexadecimal digits, by shifting and or-ing
// (lab3/string_utils.c).
module HexCodec {
  import opened Naturals

  const DIGITS := 32
  const WORD128 := 0x1_0000_0000_0000_0000_0000_0000_0000_0000

  predicate IsHex(c: char) { '0' <= c <= '9' || 'A' <= c <= 'F' }

  // Anything but a digit counts as zero.
  function HexToInt(c: char): (n: nat)
    ensures n < 16
  {
    if '0' <= c <= '9' then c as int - '0' as int
    else if 'A' <= c <= 'F' then 10 + c as int - 'A' as int
    else 0
  }

  function IntToHex(n: nat): char {
    if n < 10 then ('0' as int + n) as char else if 9 < n < 16 then ('A' as int + n - 10) as char else '0'
  }

  // A digit survives being read and written exactly when it is one.
  lemma DigitSurvives(c: char)
    ensures IntToHex(HexToInt(c)) == c <==> IsHex(c)
  {
  }

  lemma NumberSurvives(n: nat)
    requires n < 16
    ensures HexToInt(IntToHex(n)) == n && IsHex(IntToHex(n))
  {
  }

  // ---- The digits in their order ----

  const ORDER := "0123456789ABCDEF"

  // Where a character stands in s, or 0.
  function PlaceIn(s: string, c: char): nat {
    if s == "" then 0 else if s[|s| - 1] == c then |s| - 1 else PlaceIn(s[..|s| - 1], c)
  }

  // The place of a hexadecimal digit among the sixteen; 0 for anything else.
  function Place(c: char): nat { PlaceIn("0123456789ABCDEF", c) }

  lemma OrderIs(i: nat)
    requires i < 16
    ensures |ORDER| == 16 && ORDER[i] == if i < 10 then ('0' as int + i) as char else ('A' as int + i - 10) as char
  {
    assert ORDER[0] == '0' && ORDER[1] == '1' && ORDER[2] == '2' && ORDER[3] == '3' && ORDER[4] == '4';
    assert ORDER[5] == '5' && ORDER[6] == '6' && ORDER[7] == '7' && ORDER[8] == '8' && ORDER[9] == '9';
    assert ORDER[10] == 'A' && ORDER[11] == 'B' && ORDER[12] == 'C' && ORDER[13] == 'D' && ORDER[14] == 'E';
    assert ORDER[15] == 'F';
  }

  // Digit number i is read as i and written for i.
  lemma DigitPlaces(i: nat)
    requires i < 16
    ensures HexToInt("0123456789ABCDEF"[i]) == i && IntToHex(i) == "0123456789ABCDEF"[i]
  {
    OrderIs(i);
  }

  lemma {:induction false} PlaceInPart(k: nat, c: char)
    requires k <= 16 && |ORDER| == 16
    ensures PlaceIn(ORDER[..k], c) == if IsHex(c) && HexToInt(c) < k then HexToInt(c) else 0
  {
    if k > 0 {
      OrderIs(k - 1);
      assert ORDER[..k][..k - 1] == ORDER[..k - 1];
      PlaceInPart(k - 1, c);
    }
  }

  // Every character is read as its place.
  lemma ReadAsPlace(c: char)
    ensures HexToInt(c) == Place(c)
  {
    OrderIs(0);
    PlaceInPart(16, c);
    assert ORDER[..16] == "0123456789ABCDEF";
  }

  // ---- Bits of an unsigned 128-bit number ----

  function Or(a: nat, b: nat): nat {
    if a == 0 && b == 0 then 0
    else 2 * Or(a / 2, b / 2) + (if a % 2 == 1 || b % 2 == 1 then 1 else 0)
  }

  function And(a: nat, b: nat): nat {
    if a == 0 || b == 0 then 0
    else 2 * And(a / 2, b / 2) + (if a % 2 == 1 && b % 2 == 1 then 1 else 0)
  }

  function ShiftLeft4(x: nat): nat { x * 16 % WORD128 }

  function ShiftRight4(x: nat): nat { x / 16 }

  lemma {:induction false} OrZero(x: nat)
    ensures Or(x, 0) == x
  {
    if x > 0 {
      OrZero(x / 2);
    }
  }

  // Where the low k bits of x are clear, or-ing a k-bit number in adds it.
  lemma {:induction false} OrFillsGap(x: nat, y: nat, h: nat, k: nat)
    requires x == y * Pow2(k) && h < Pow2(k)
    ensures Or(x, h) == x + h
    decreases k
  {
    if k == 0 {
      OrZero(x);
    } else {
      assert x == 2 * (y * Pow2(k - 1));
      OrFillsGap(x / 2, y, h / 2, k - 1);
    }
  }

  lemma {:induction false} AndStep(x: nat, m: nat)
    ensures And(x, 2 * m + 1) == 2 * And(x / 2, m) + x % 2
  {
  }

  lemma {:induction false} MaskStep(x: nat, d: nat)
    requires d > 0 && And(x / 2, d - 1) == (x / 2) % d
    ensures And(x, 2 * d - 1) == x % (2 * d)
  {
    hide And;
    AndStep(x, d - 1);
    HalfOfRemainder(x, d);
  }

  lemma {:induction false} AndMask(x: nat, k: nat)
    ensures And(x, Pow2(k) - 1) == x % Pow2(k)
    decreases k
  {
    if k > 0 {
      hide And;
      AndMask(x / 2, k - 1);
      MaskStep(x, Pow2(k - 1));
    }
  }

  lemma HalfOfRemainder(x: nat, d: nat)
    requires d > 0
    ensures x % (2 * d) == 2 * ((x / 2) % d) + x % 2
  {
    var q, r := (x / 2) / d, (x / 2) % d;
    assert x == q * (2 * d) + (2 * r + x % 2);
    UniqueRemainder(x, 2 * d, q, 2 * r + x % 2);
  }

  lemma UniqueRemainder(x: nat, d: nat, q: nat, r: nat)
    requires d > 0 && r < d && x == q * d + r
    ensures x % d == r && x / d == q
  {
    var q', r' := x / d, x % d;
    assert x == q' * d + r';
    Factor(q, q', d);
    if q > q' {
      AtLeastOne(q - q', d);
    } else if q < q' {
      AtLeastOne(q' - q, d);
    }
  }

  lemma Factor(a: int, b: int, d: int)
    ensures a * d - b * d == (a - b) * d && b * d - a * d == (b - a) * d
  {
  }

  lemma AtLeastOne(k: int, d: int)
    requires k >= 1 && d > 0
    ensures k * d >= d
  {
  }

  lemma {:induction false} LowFour(x: nat)
    ensures And(x, 15) == x % 16
  {
    AndMask(x, 4);
    assert Pow2(4) == 16;
  }

  // ---- Positional value ----

  function ValueOf(s: string): nat {
    if s == "" then 0 else 16 * ValueOf(s[..|s| - 1]) + HexToInt(s[|s| - 1])
  }

  function Pow16(k: nat): (p: nat)
    ensures p > 0
  {
    if k == 0 then 1 else 16 * Pow16(k - 1)
  }

  lemma {:induction false} Pow16Adds(a: nat, b: nat)
    ensures Pow16(a + b) == Pow16(a) * Pow16(b)
    decreases b
  {
    if b > 0 {
      Pow16Adds(a, b - 1);
    }
  }

  lemma Pow16Is128Bits()
    ensures Pow16(DIGITS) == WORD128
  {
    assert Pow16(1) == 16;
    Pow16Adds(1, 1);
    Pow16Adds(2, 2);
    Pow16Adds(4, 4);
    Pow16Adds(8, 8);
    Pow16Adds(16, 16);
  }

  lemma {:induction false} ValueBound(s: string)
    ensures ValueOf(s) < Pow16(|s|)
  {
    if s != "" {
      ValueBound(s[..|s| - 1]);
    }
  }

  // The sum over the first k digits of 16 to the number of digits behind, times the digit's place.
  function PlaceSum(s: string, k: nat): nat
    requires k <= |s|
  {
    if k == 0 then 0 else PlaceSum(s, k - 1) + Pow16(|s| - k) * Place(s[k - 1])
  }

  lemma {:induction false} PlaceSumLonger(s: string, c: char, k: nat)
    requires k <= |s|
    ensures PlaceSum(s + [c], k) == 16 * PlaceSum(s, k)
    decreases k
  {
    hide Place;
    if k > 0 {
      PlaceSumLonger(s, c, k - 1);
      assert (s + [c])[k - 1] == s[k - 1];
      SixteenTimes(|s| - k, Place(s[k - 1]));
    }
  }

  lemma SixteenTimes(k: nat, d: nat)
    ensures Pow16(k + 1) * d == 16 * (Pow16(k) * d)
  {
  }

  lemma {:induction false} ValueIsPlaceSum(s: string)
    ensures ValueOf(s) == PlaceSum(s, |s|)
  {
    hide Place, HexToInt;
    if s != "" {
      var less, c := s[..|s| - 1], s[|s| - 1];
      ValueIsPlaceSum(less);
      assert s == less + [c];
      PlaceSumLonger(less, c, |less|);
      ReadAsPlace(c);
      assert Pow16(0) == 1;
    }
  }

  lemma {:induction false} Pow16Grows(a: nat, b: nat)
    requires a <= b
    ensures Pow16(a) <= Pow16(b)
    decreases b
  {
    if a < b {
      Pow16Grows(a, b - 1);
    }
  }

  // k digits, the most significant first.
  function ToHex(n: nat, k: nat): (s: string)
    ensures |s| == k
  {
    if k == 0 then "" else ToHex(n / 16, k - 1) + [IntToHex(n % 16)]
  }

  // ---- The two loops ----

  lemma ValueGrows(s: string, i: nat)
    requires i < |s|
    ensures ValueOf(s[..i + 1]) == 16 * ValueOf(s[..i]) + HexToInt(s[i])
  {
    hide HexToInt;
    assert s[..i + 1][..i] == s[..i];
  }

  lemma FillOne(s: string, i: nat)
    requires i < |s| && i < DIGITS
    ensures Or(16 * ValueOf(s[..i]), HexToInt(s[i])) == ValueOf(s[..i + 1])
    ensures i < DIGITS - 1 ==> ShiftLeft4(ValueOf(s[..i + 1])) == 16 * ValueOf(s[..i + 1])
  {
    hide ValueOf, Or, HexToInt;
    ValueGrows(s, i);
    assert Pow2(4) == 16;
    OrFillsGap(16 * ValueOf(s[..i]), ValueOf(s[..i]), HexToInt(s[i]), 4);
    if i < DIGITS - 1 {
      ValueBound(s[..i + 1]);
      Pow16Grows(i + 1, DIGITS - 1);
      Pow16Is128Bits();
      assert 16 * ValueOf(s[..i + 1]) < 16 * Pow16(DIGITS - 1) == Pow16(DIGITS);
    }
  }

  // The shifts never lose a bit: the result is the positional sum of the 32 digits.
  method HexToInt128(st: string) returns (number: nat)
    requires |st| >= DIGITS
    ensures number == ValueOf(st[..DIGITS]) && number < WORD128
    ensures number == PlaceSum(st[..32], 32)
  {
    hide ValueOf, Or, HexToInt, ShiftLeft4;
    number := 0;
    NoDigits();
    assert st[..0] == "";
    for i := 0 to DIGITS - 1
      invariant number == 16 * ValueOf(st[..i])
    {
      var hex := HexToInt(st[i]);
      FillOne(st, i);
      number := ShiftLeft4(Or(number, hex));
    }
    FillOne(st, DIGITS - 1);
    number := Or(number, HexToInt(st[DIGITS - 1]));
    ValueBound(st[..DIGITS]);
    ValueIsPlaceSum(st[..DIGITS]);
    Pow16Is128Bits();
  }

  lemma NoDigits()
    ensures ValueOf("") == 0
  {
  }

  // n without its last i digits.
  function Shifted(n: nat, i: nat): nat { if i == 0 then n else Shifted(n / 16, i - 1) }

  lemma {:induction false} LastDigits(n: nat, k: nat, i: nat)
    requires i < k
    ensures ToHex(n, k)[k - 1 - i] == IntToHex(Shifted(n, i) % 16)
    decreases i
  {
    hide IntToHex;
    if i > 0 {
      LastDigits(n / 16, k - 1, i - 1);
    }
  }

  lemma {:induction false} ShiftAgain(n: nat, i: nat)
    ensures ShiftRight4(Shifted(n, i)) == Shifted(n, i + 1)
    decreases i
  {
    if i > 0 {
      ShiftAgain(n / 16, i - 1);
    }
  }

  lemma {:induction false} ShiftedDivides(n: nat, i: nat)
    ensures Shifted(n, i) == n / Pow16(i)
    decreases i
  {
    if i > 0 {
      ShiftedDivides(n / 16, i - 1);
      DivideTwice(n, 16, Pow16(i - 1));
    }
  }

  lemma DivideTwice(n: nat, a: nat, b: nat)
    requires a > 0 && b > 0
    ensures a * b > 0 && n / a / b == n / (a * b)
  {
    var q, r := n / a / b, n / a % b;
    assert n / a == q * b + r;
    Scale(n / a, q * b + r, a);
    assert n == (q * b + r) * a + n % a;
    assert (q * b + r) * a == q * (a * b) + r * a;
    BelowProduct(r, b, n % a, a);
    UniqueRemainder(n, a * b, q, r * a + n % a);
  }

  lemma Scale(x: nat, y: nat, a: nat)
    requires x == y
    ensures x * a == y * a
  {
  }

  lemma BelowProduct(r: nat, b: nat, s: nat, a: nat)
    requires r < b && s < a
    ensures r * a + s < a * b
  {
    assert (r + 1) * a <= b * a;
  }

  // The k-th of the 32 characters is the digit for 16 to the (31 - k).
  lemma {:induction false} WrittenByPlace(n: nat, k: nat)
    requires k < 32
    ensures ToHex(n, 32)[k] == "0123456789ABCDEF"[(n / Pow16(31 - k)) % 16]
  {
    hide ToHex, IntToHex, Pow16, Shifted;
    LastDigits(n, 32, 31 - k);
    ShiftedDivides(n, 31 - k);
    DigitPlaces((n / Pow16(31 - k)) % 16);
  }

  method Int128ToHex(number: nat, st: array<char>)
    requires number < WORD128 && st.Length >= DIGITS
    modifies st
    ensures st[..DIGITS] == ToHex(number, DIGITS)
    ensures forall k :: 0 <= k < 32 ==> st[k] == "0123456789ABCDEF"[(number / Pow16(31 - k)) % 16]
    ensures st[DIGITS..] == old(st[DIGITS..])
  {
    hide And, ShiftRight4, ToHex, IntToHex;
    var rest := number;
    for i := 1 to DIGITS + 1
      invariant rest == Shifted(number, i - 1)
      invariant forall j :: DIGITS - i < j < DIGITS ==> st[j] == ToHex(number, DIGITS)[j]
      invariant st[DIGITS..] == old(st[DIGITS..])
    {
      LowFour(rest);
      LastDigits(number, DIGITS, i - 1);
      var hex := And(rest, 15);
      ShiftAgain(number, i - 1);
      rest := ShiftRight4(rest);
      st[DIGITS - i] := IntToHex(hex);
    }
    forall k | 0 <= k < 32
      ensures st[k] == "0123456789ABCDEF"[(number / Pow16(31 - k)) % 16]
    {
      WrittenByPlace(number, k);
    }
  }

  // ---- One undoes the other ----

  lemma {:induction false} ReadWritten(n: nat, k: nat)
    requires n < Pow16(k)
    ensures ValueOf(ToHex(n, k)) == n && forall i :: 0 <= i < k ==> IsHex(ToHex(n, k)[i])
  {
    if k > 0 {
      assert n / 16 < Pow16(k - 1);
      ReadWritten(n / 16, k - 1);
      NumberSurvives(n % 16);
      assert ToHex(n, k)[..k - 1] == ToHex(n / 16, k - 1);
    }
  }

  lemma {:induction false} WriteRead(s: string)
    ensures ToHex(ValueOf(s), |s|) == s <==> forall i :: 0 <= i < |s| ==> IsHex(s[i])
  {
    if s != "" {
      var less, c := s[..|s| - 1], s[|s| - 1];
      WriteRead(less);
      DigitSurvives(c);
      UniqueRemainder(ValueOf(s), 16, ValueOf(less), HexToInt(c));
      var t := ToHex(ValueOf(s), |s|);
      assert t == ToHex(ValueOf(less), |less|) + [IntToHex(HexToInt(c))];
      assert s == less + [c];
      assert t == s ==> t[..|less|] == s[..|less|];
    }
  }

  // Writing a 128-bit number and reading it back gives the number; reading 32 characters and
  // writing them back gives the characters exactly when they are all upper-case digits.
  lemma {:induction false} CodecIsBijection(n: nat, s: string)
    requires n < WORD128 && |s| == DIGITS
    ensures ValueOf(ToHex(n, DIGITS)) == n
    ensures ValueOf(s) < WORD128
    ensures ToHex(ValueOf(s), DIGITS) == s <==> forall i :: 0 <= i < DIGITS ==> IsHex(s[i])
  {
    hide ValueOf, ToHex, Pow16;
    Pow16Is128Bits();
    ReadWritten(n, DIGITS);
    ValueBound(s);
    WriteRead(s);
  }
}
