/** `utoa` and `itoa`: digits into a buffer, backwards and then reversed in place. */
module NumberFormat {
  import opened Common

  const DIGITS := "0123456789ABCDEF"

  /** Division and remainder as repeated subtraction, which keeps the proofs linear; see `DivisionIs`. */
  function Quotient(value: nat, base: nat): (q: nat)
    requires base >= 2
    ensures value < base ==> q == 0
    ensures value >= base ==> 1 <= q < value
  {
    if value < base then 0 else 1 + Quotient(value - base, base)
  }

  function Remainder(value: nat, base: nat): (r: nat)
    requires base >= 2
    ensures r < base
  {
    if value < base then value else Remainder(value - base, base)
  }

  /** The digits of a number, most significant first. */
  function Digits(value: nat, base: nat): (d: seq<nat>)
    requires base >= 2
    ensures |d| >= 1 && forall i :: 0 <= i < |d| ==> d[i] < base
    decreases value
  {
    if value < base then [value] else Digits(Quotient(value, base), base) + [Remainder(value, base)]
  }

  /** The number a string of digits stands for. */
  function Eval(d: seq<nat>, base: nat): nat {
    if d == [] then 0 else Eval(d[..|d| - 1], base) * base + d[|d| - 1]
  }

  function Power(base: nat, k: nat): nat {
    if k == 0 then 1 else Power(base, k - 1) * base
  }

  /** `k` is the least length, at least one, in which the value can be written. */
  predicate LeastLength(value: nat, base: nat, k: nat) {
    && k >= 1 && value < Power(base, k)
    && (k > 1 ==> value >= Power(base, k - 1))
  }

  // ---------------------------------------------------------------- the digits

  lemma {:induction false} Division(value: nat, base: nat)
    requires base >= 2
    ensures value == Quotient(value, base) * base + Remainder(value, base)
    decreases value
  {
    if value >= base {
      Division(value - base, base);
      assert Quotient(value, base) * base == Quotient(value - base, base) * base + base;
    }
  }

  lemma Scale(a: nat, b: nat, base: nat)
    requires a <= b
    ensures a * base <= b * base
  {
  }

  lemma DivisionUnique(value: nat, base: nat, q: nat, r: nat)
    requires base >= 2 && r < base && value == q * base + r
    ensures value / base == q && value % base == r
  {
    var p, s := value / base, value % base;
    assert value == p * base + s;
    if p < q {
      Scale(p + 1, q, base);
    } else if p > q {
      Scale(q + 1, p, base);
    }
  }

  /** They are the operators the code uses. */
  lemma DivisionIs(value: nat, base: nat)
    requires base >= 2
    ensures value / base == Quotient(value, base) && value % base == Remainder(value, base)
  {
    Division(value, base);
    DivisionUnique(value, base, Quotient(value, base), Remainder(value, base));
  }

  lemma EvalSnoc(d: seq<nat>, r: nat, base: nat)
    ensures Eval(d + [r], base) == Eval(d, base) * base + r
  {
    assert (d + [r])[..|d|] == d;
  }

  lemma {:induction false} DigitsEvaluate(value: nat, base: nat)
    requires base >= 2
    ensures Eval(Digits(value, base), base) == value
    decreases value
  {
    if value < base {
      assert [value][..0] == [];
    } else {
      Division(value, base);
      DigitsEvaluate(Quotient(value, base), base);
      EvalSnoc(Digits(Quotient(value, base), base), Remainder(value, base), base);
    }
  }

  lemma {:induction false} NoLeadingZero(value: nat, base: nat)
    requires base >= 2
    ensures Digits(value, base)[0] == 0 ==> value == 0
    decreases value
  {
    if value >= base {
      NoLeadingZero(Quotient(value, base), base);
    }
  }

  /** Bounds on a quotient are bounds on the number. */
  lemma QuotientBounds(value: nat, base: nat, low: nat, high: nat)
    requires base >= 2 && low <= Quotient(value, base) < high
    ensures low * base <= value < high * base
  {
    var q := Quotient(value, base);
    Division(value, base);
    Scale(low, q, base);
    Scale(q + 1, high, base);
    assert (q + 1) * base == q * base + base;
  }

  lemma NextPower(value: nat, base: nat, k: nat)
    requires base >= 2 && value >= base && LeastLength(Quotient(value, base), base, k)
    ensures LeastLength(value, base, k + 1)
  {
    if k > 1 {
      QuotientBounds(value, base, Power(base, k - 1), Power(base, k));
    } else {
      QuotientBounds(value, base, Power(base, 0), Power(base, 1));
    }
  }

  lemma {:induction false} DigitsLength(value: nat, base: nat)
    requires base >= 2
    ensures LeastLength(value, base, |Digits(value, base)|)
    decreases value
  {
    if value < base {
      assert Power(base, 1) == Power(base, 0) * base == base;
    } else {
      DigitsLength(Quotient(value, base), base);
      NextPower(value, base, |Digits(Quotient(value, base), base)|);
    }
  }

  lemma {:induction false} PowerGrows(base: nat, j: nat, k: nat)
    requires base >= 2 && j <= k
    ensures Power(base, j) <= Power(base, k)
    decreases k
  {
    if j < k {
      PowerGrows(base, j, k - 1);
    }
  }

  lemma {:induction false} PowerOfTwo(base: nat, k: nat)
    requires base >= 2
    ensures Power(2, k) <= Power(base, k)
  {
    if k > 0 {
      PowerOfTwo(base, k - 1);
      Scale(Power(2, k - 1), Power(base, k - 1), 2);
      assert Power(base, k - 1) * 2 <= Power(base, k - 1) * base;
    }
  }

  lemma TwoTo32()
    ensures Power(2, 32) == U32
  {
    assert Power(2, 8) == 0x100;
    assert Power(2, 16) == 0x1_0000;
    assert Power(2, 24) == 0x100_0000;
  }

  /** A u32 needs at most 32 digits, so 33 cells with the terminator. */
  lemma AtMost32(value: nat, base: nat)
    requires base >= 2 && value < U32
    ensures |Digits(value, base)| <= 32
  {
    var k := |Digits(value, base)|;
    DigitsLength(value, base);
    if k > 32 {
      PowerOfTwo(base, k - 1);
      PowerGrows(2, 32, k - 1);
      TwoTo32();
    }
  }

  // ---------------------------------------------------------------- the buffer

  /** Cells [start, start + |d|) hold the characters of `d`, in order. */
  predicate Shows(str: seq<char>, start: nat, d: seq<nat>) {
    && start + |d| <= |str|
    && forall k :: start <= k < start + |d| ==> d[k - start] < 16 && str[k] == DIGITS[d[k - start]]
  }

  /** Cells [start, start + i) hold the last `i` characters of `d`, the last one first. */
  predicate ShowsBackwards(str: seq<char>, start: nat, i: nat, d: seq<nat>) {
    && start + i <= |str| && i <= |d|
    && forall k :: start <= k < start + i ==> d[|d| - 1 - (k - start)] < 16 && str[k] == DIGITS[d[|d| - 1 - (k - start)]]
  }

  /** The digits of a value, and the terminator. */
  predicate Formatted(str: seq<char>, start: nat, value: nat, base: nat)
    requires base >= 2
  {
    && start + |Digits(value, base)| < |str|
    && Shows(str, start, Digits(value, base)) && str[start + |Digits(value, base)|] == '\0'
  }

  // ---------------------------------------------------------------- a reader of the text

  /** What a character counts as a digit; -1 if it is none. */
  function CharValue(c: char): int {
    if '0' <= c <= '9' then c as int - '0' as int
    else if 'A' <= c <= 'F' then c as int - 'A' as int + 10
    else -1
  }

  /** The characters from `start` up to the terminator. */
  function Text(str: seq<char>, start: nat): (s: seq<char>)
    decreases |str| - start
  {
    if start >= |str| || str[start] == '\0' then [] else [str[start]] + Text(str, start + 1)
  }

  /** The number a text stands for, if all its characters are digits of the base. */
  function ReadDigits(text: seq<char>, base: nat): Option<nat> {
    if text == [] then Some(0)
    else
      var last := CharValue(text[|text| - 1]);
      match ReadDigits(text[..|text| - 1], base)
      case None => None
      case Some(v) => if 0 <= last < base then Some(v * base + last) else None
  }

  function ReadNumber(text: seq<char>, base: nat): Option<nat> {
    if text == [] then None else ReadDigits(text, base)
  }

  /** A decimal number with its sign. */
  function ReadSigned(text: seq<char>): Option<int> {
    var negative := text != [] && text[0] == '-';
    match ReadNumber(if negative then text[1..] else text, 10)
    case None => None
    case Some(v) => var n: int := v; Some(if negative then -n else n)
  }

  lemma DigitCounts(d: nat)
    requires d < 16
    ensures CharValue(DIGITS[d]) == d && DIGITS[d] != '\0' && DIGITS[d] != '-'
  {
    assert DIGITS[0] == '0' && DIGITS[1] == '1' && DIGITS[2] == '2' && DIGITS[3] == '3';
    assert DIGITS[4] == '4' && DIGITS[5] == '5' && DIGITS[6] == '6' && DIGITS[7] == '7';
    assert DIGITS[8] == '8' && DIGITS[9] == '9' && DIGITS[10] == 'A' && DIGITS[11] == 'B';
    assert DIGITS[12] == 'C' && DIGITS[13] == 'D' && DIGITS[14] == 'E' && DIGITS[15] == 'F';
  }

  lemma {:induction false} TextShows(str: seq<char>, start: nat, n: nat)
    requires start + n < |str| && str[start + n] == '\0'
    requires forall k :: start <= k < start + n ==> str[k] != '\0'
    ensures Text(str, start) == str[start..start + n]
    decreases n
  {
    if n > 0 {
      TextShows(str, start + 1, n - 1);
      assert str[start..start + n] == [str[start]] + str[start + 1..start + n];
    }
  }

  lemma {:induction false} ReadsEval(text: seq<char>, d: seq<nat>, base: nat)
    requires 2 <= base <= 16 && |text| == |d|
    requires forall k :: 0 <= k < |d| ==> d[k] < base && text[k] == DIGITS[d[k]]
    ensures ReadDigits(text, base) == Some(Eval(d, base))
  {
    if d != [] {
      var n := |d| - 1;
      ReadsEval(text[..n], d[..n], base);
      DigitCounts(d[n]);
    }
  }

  /** A reader of the text gets the value back. */
  lemma FormattedReads(str: seq<char>, start: nat, value: nat, base: nat)
    requires 2 <= base <= 16 && Formatted(str, start, value, base)
    ensures ReadNumber(Text(str, start), base) == Some(value)
    ensures Text(str, start) != [] && Text(str, start)[0] != '-'
  {
    var d := Digits(value, base);
    forall k | start <= k < start + |d|
      ensures str[k] == DIGITS[d[k - start]] && str[k] != '\0' && str[k] != '-'
    {
      DigitCounts(d[k - start]);
    }
    TextShows(str, start, |d|);
    ReadsEval(str[start..start + |d|], d, base);
    DigitsEvaluate(value, base);
  }

  /** Outside [from, to) the buffer is what it was. */
  predicate SameOutside(now: seq<char>, was: seq<char>, from: nat, to: nat) {
    |now| == |was| && forall k :: 0 <= k < |now| && !(from <= k < to) ==> now[k] == was[k]
  }

  method DivMod(value: nat, base: nat) returns (quotient: nat, remainder: nat)
    requires base >= 2
    ensures quotient == Quotient(value, base) && remainder == Remainder(value, base)
  {
    DivisionIs(value, base);
    quotient, remainder := value / base, value % base;
  }

  /** The do-while loop: the digits, least significant first. */
  method WriteBackwards(value: nat, str: array<char>, start: nat, base: nat) returns (i: nat)
    requires 2 <= base <= 16 && start + |Digits(value, base)| < str.Length
    modifies str
    ensures i == |Digits(value, base)| && ShowsBackwards(str[..], start, i, Digits(value, base))
    ensures SameOutside(str[..], old(str[..]), start, start + i)
  {
    ghost var d := Digits(value, base);
    i := 0;
    var rest: nat := value;
    while true
      invariant i < |d| && Digits(rest, base) == d[..|d| - i]
      invariant ShowsBackwards(str[..], start, i, d)
      invariant SameOutside(str[..], old(str[..]), start, start + i)
      decreases rest
    {
      var quotient, remainder := DivMod(rest, base);
      assert Digits(rest, base)[|d| - i - 1] == remainder;
      str[start + i] := DIGITS[remainder];
      i := i + 1;
      if quotient == 0 {
        break;
      }
      rest := quotient;
    }
  }

  /** The swapping loop: cells [start, start + n) end to end. */
  method ReverseInPlace(str: array<char>, start: nat, n: nat)
    requires 1 <= n && start + n <= str.Length
    modifies str
    ensures forall k :: start <= k < start + n ==> str[k] == old(str[2 * start + n - 1 - k])
    ensures SameOutside(str[..], old(str[..]), start, start + n)
  {
    var j, i := 0, n - 1;
    while j < i
      invariant 0 <= j <= i + 1 <= n && i == n - 1 - j
      invariant forall k :: start <= k < start + j ==> str[k] == old(str[2 * start + n - 1 - k])
      invariant forall k :: start + i < k < start + n ==> str[k] == old(str[2 * start + n - 1 - k])
      invariant forall k :: start + j <= k <= start + i ==> str[k] == old(str[k])
      invariant SameOutside(str[..], old(str[..]), start, start + n)
    {
      var c := str[start + j];
      str[start + j] := str[start + i];
      str[start + i] := c;
      j, i := j + 1, i - 1;
    }
  }

  /** `utoa` at str[start..]: the digits, a terminator, nothing else; null for a base it does not know. */
  method Utoa(value: nat, str: array<char>, start: nat, base: int) returns (ok: bool)
    requires value < U32 && start < str.Length
    requires 2 <= base <= 16 ==> start + |Digits(value, base)| < str.Length
    modifies str
    ensures ok <==> 2 <= base <= 16
    ensures !ok ==> str[..] == old(str[..])[start := '\0']
    ensures ok ==> Formatted(str[..], start, value, base)
    ensures ok ==> ReadNumber(Text(str[..], start), base) == Some(value)
    ensures ok ==> SameOutside(str[..], old(str[..]), start, start + |Digits(value, base)| + 1)
  {
    if base < 2 || base > 16 {
      str[start] := '\0';
      return false;
    }
    var i := WriteBackwards(value, str, start, base);
    str[start + i] := '\0';
    ReverseInPlace(str, start, i);
    FormattedReads(str[..], start, value, base);
    return true;
  }

  /** The number `itoa` formats, after the sign is taken off. */
  function Magnitude(value: int, base: int): (m: nat)
    requires -0x8000_0000 <= value < 0x8000_0000
    ensures m < U32
  {
    if value >= 0 then value else if base == 10 then -value else value + U32
  }

  /** Where the pointer `itoa` returns points: behind the sign of a negative decimal. */
  function SignWidth(value: int, base: int): nat {
    if base == 10 && value < 0 then 1 else 0
  }

  /** Read from the first cell on, sign and digits give the value back. */
  lemma ItoaText(str: seq<char>, value: int, base: int)
    requires -0x8000_0000 <= value < 0x8000_0000 && 2 <= base <= 16
    requires Formatted(str, SignWidth(value, base), Magnitude(value, base), base)
    requires base == 10 && value < 0 ==> str[0] == '-'
    ensures base == 10 ==> ReadSigned(Text(str, 0)) == Some(value)
    ensures base != 10 ==> ReadNumber(Text(str, 0), base) == Some(value % U32)
  {
    FormattedReads(str, SignWidth(value, base), Magnitude(value, base), base);
    if base == 10 && value < 0 {
      assert Text(str, 0) == ['-'] + Text(str, 1);
    }
  }

  /** `itoa`: the result points behind the sign it stores; no buffer or an unknown base touches nothing. */
  method Itoa(value: int, str: array?<char>, base: int) returns (at: int)
    requires -0x8000_0000 <= value < 0x8000_0000
    requires str != null && 2 <= base <= 16 ==>
      SignWidth(value, base) + |Digits(Magnitude(value, base), base)| < str.Length
    modifies if str == null then {} else {str}
    ensures at == -1 <==> str == null || base < 2 || base > 16
    ensures str != null && at == -1 ==> str[..] == old(str[..])
    ensures at != -1 ==> at == SignWidth(value, base) && Formatted(str[..], at, Magnitude(value, base), base)
    ensures at != -1 && base == 10 ==> ReadSigned(Text(str[..], 0)) == Some(value)
    ensures at != -1 && base != 10 ==> at == 0 && ReadNumber(Text(str[..], 0), base) == Some(value % U32)
    ensures at != -1 ==>
      SameOutside(str[..], old(str[..]), 0, at + |Digits(Magnitude(value, base), base)| + 1)
    ensures at != -1 && base == 10 && value < 0 ==> at == 1 && str[0] == '-'
  {
    if str == null || base < 2 || base > 16 {
      return -1;
    }
    var i := 0;
    var uvalue := value;
    if base == 10 && value < 0 {
      str[0] := '-';
      uvalue := -value;
      i := i + 1;
    } else if value < 0 {
      uvalue := value + U32;
    }
    var ok := Utoa(uvalue, str, i, base);
    at := i;
    ItoaText(str[..], value, base);
  }

  /** What a reader of the text gets back: the value itself, or its two's complement. */
  lemma ItoaReads(value: int, base: nat)
    requires -0x8000_0000 <= value < 0x8000_0000 && 2 <= base <= 16
    ensures Eval(Digits(Magnitude(value, base), base), base) ==
      (if base == 10 then (if value < 0 then -value else value) else value % U32)
    ensures SignWidth(value, base) + |Digits(Magnitude(value, base), base)| + 1 <= 33
  {
    DigitsEvaluate(Magnitude(value, base), base);
    AtMost32(Magnitude(value, base), base);
    if base == 10 {
      DigitsLength(Magnitude(value, 10), 10);
      TenDigits(Magnitude(value, 10));
    }
  }

  lemma TenDigits(value: nat)
    requires value < U32
    ensures |Digits(value, 10)| <= 10
  {
    var k := |Digits(value, 10)|;
    DigitsLength(value, 10);
    PowersOfTen();
    if k > 10 {
      PowerGrows(10, 10, k - 1);
    }
  }

  lemma PowersOfTen()
    ensures Power(10, 10) == 10_000_000_000
  {
    assert Power(10, 5) == 100_000;
  }
}
