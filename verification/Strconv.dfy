/** Go's `strconv` and the `%d` verb, on a platform whose `int` has 64 bits. */
module Strconv {

  const MAX_UINT64: int := 0xFFFF_FFFF_FFFF_FFFF
  const MAX_INT64: int := 0x7FFF_FFFF_FFFF_FFFF
  const MIN_INT64: int := -0x8000_0000_0000_0000

  predicate IsInt64(n: int) {
    MIN_INT64 <= n <= MAX_INT64
  }

  datatype NumError = NoError | Syntax | Range

  /** What the parsers return: the value is set even when there is an error. */
  datatype Number = Number(value: int, err: NumError)

  predicate IsDigit(c: char) {
    '0' <= c <= '9'
  }

  function DigitValue(c: char): (d: nat)
    requires IsDigit(c)
    ensures d < 10
  {
    c as int - '0' as int
  }

  function DigitChar(d: nat): (c: char)
    requires d < 10
    ensures IsDigit(c) && DigitValue(c) == d
  {
    (d + '0' as int) as char
  }

  /** The scanning loop of ParseUint, from the left, with `acc` read so far. */
  function ScanDigits(s: string, acc: nat): (r: Number)
    requires acc <= MAX_UINT64
    ensures 0 <= r.value <= MAX_UINT64
    ensures r.err == Syntax ==> r.value == 0
  {
    if s == "" then Number(acc, NoError)
    else if !IsDigit(s[0]) then Number(0, Syntax)
    else
      var next := acc * 10 + DigitValue(s[0]);
      if next > MAX_UINT64 then Number(MAX_UINT64, Range)
      else ScanDigits(s[1..], next)
  }

  function ParseUint(s: string): (r: Number)
    ensures 0 <= r.value <= MAX_UINT64
    ensures r.err == Syntax ==> r.value == 0
  {
    if s == "" then Number(0, Syntax) else ScanDigits(s, 0)
  }

  /**
   strconv.ParseInt(s, 10, 64), and strconv.Atoi, which agrees with it. A value that does not fit is
   clamped, and a character that is no digit counts only when no overflow came before it.
   */
  function Atoi(s: string): (r: Number)
    ensures IsInt64(r.value)
  {
    if s == "" then Number(0, Syntax)
    else
      var neg := s[0] == '-';
      var digits := if s[0] == '+' || s[0] == '-' then s[1..] else s;
      var u := ParseUint(digits);
      if u.err == Syntax then Number(0, Syntax)
      else if !neg && u.value > MAX_INT64 then Number(MAX_INT64, Range)
      else if neg && u.value > MAX_INT64 + 1 then Number(MIN_INT64, Range)
      else Number(if neg then -u.value else u.value, NoError)
  }

  function NatToString(n: nat): (s: string)
    ensures s != ""
    ensures forall c :: c in s ==> IsDigit(c)
  {
    if n < 10 then [DigitChar(n)] else NatToString(n / 10) + [DigitChar(n % 10)]
  }

  /** The `%d` verb, and strconv.Itoa. */
  function Itoa(n: int): (s: string)
    ensures s != ""
    ensures forall c :: c in s ==> IsDigit(c) || c == '-'
  {
    if n < 0 then "-" + NatToString(-n) else NatToString(n)
  }

  /** The value that a run of digits adds to what was read before it. */
  ghost function Value(s: string, acc: nat): nat
    requires forall c :: c in s ==> IsDigit(c)
  {
    if s == "" then acc else Value(s[1..], acc * 10 + DigitValue(s[0]))
  }

  lemma {:induction false} ValueSnoc(s: string, acc: nat, c: char)
    requires forall d :: d in s ==> IsDigit(d)
    requires IsDigit(c)
    ensures Value(s + [c], acc) == Value(s, acc) * 10 + DigitValue(c)
  {
    if s == "" {
      assert Value([c], acc) == Value("", acc * 10 + DigitValue(c));
    } else {
      assert (s + [c])[1..] == s[1..] + [c];
      ValueSnoc(s[1..], acc * 10 + DigitValue(s[0]), c);
    }
  }

  lemma {:induction false} ValueOfNat(n: nat)
    ensures Value(NatToString(n), 0) == n
  {
    if n >= 10 {
      ValueOfNat(n / 10);
      ValueSnoc(NatToString(n / 10), 0, DigitChar(n % 10));
    } else {
      assert Value([DigitChar(n)], 0) == Value("", n);
    }
  }

  lemma {:induction false} ValueGrows(s: string, acc: nat)
    requires forall c :: c in s ==> IsDigit(c)
    ensures acc <= Value(s, acc)
  {
    if s != "" {
      ValueGrows(s[1..], acc * 10 + DigitValue(s[0]));
    }
  }

  lemma {:induction false} ScanIsValue(s: string, acc: nat)
    requires forall c :: c in s ==> IsDigit(c)
    requires Value(s, acc) <= MAX_UINT64
    ensures acc <= MAX_UINT64
    ensures ScanDigits(s, acc) == Number(Value(s, acc), NoError)
  {
    ValueGrows(s, acc);
    if s != "" {
      ScanIsValue(s[1..], acc * 10 + DigitValue(s[0]));
    }
  }

  /** Reading back a printed integer. */
  lemma AtoiOfItoa(n: int)
    requires IsInt64(n)
    ensures Atoi(Itoa(n)) == Number(n, NoError)
  {
    var digits := NatToString(if n < 0 then -n else n);
    ValueOfNat(if n < 0 then -n else n);
    ScanIsValue(digits, 0);
    if n < 0 {
      assert Itoa(n)[1..] == digits;
    } else {
      assert IsDigit(digits[0]);
    }
  }

  /** A printed integer holds no character that is neither a digit nor the minus sign. */
  lemma ItoaAvoids(n: int, c: char)
    requires !IsDigit(c) && c != '-'
    ensures c !in Itoa(n)
  {
  }

  /** Scanning past digits: their value goes on with the rest, unless it overflows on the way. */
  lemma {:induction false} ScanPast(digits: string, rest: string, acc: nat)
    requires (forall c :: c in digits ==> IsDigit(c)) && acc <= MAX_UINT64
    ensures ScanDigits(digits + rest, acc)
         == if Value(digits, acc) > MAX_UINT64 then Number(MAX_UINT64, Range) else ScanDigits(rest, Value(digits, acc))
  {
    if digits == "" {
      assert digits + rest == rest;
    } else {
      var next := acc * 10 + DigitValue(digits[0]);
      assert (digits + rest)[1..] == digits[1..] + rest;
      ValueGrows(digits[1..], next);
      if next <= MAX_UINT64 { ScanPast(digits[1..], rest, next); }
    }
  }

  /**
   Every text is a sign, digits and a rest that starts with no digit. The number is the signed value of the
   digits, clamped to 64 bits; without digits, or with a rest, there is none, unless the digits alone leave 64 bits.
   */
  lemma AtoiMeans(sign: string, digits: string, rest: string)
    requires sign in {"", "+", "-"} && (forall c :: c in digits ==> IsDigit(c)) && (rest != "" ==> !IsDigit(rest[0]))
    requires sign == "" && digits == "" && rest != "" ==> rest[0] != '+' && rest[0] != '-'
    ensures var v: int := Value(digits, 0);
            Atoi(sign + digits + rest) ==
            if v <= MAX_UINT64 && (digits == "" || rest != "") then Number(0, Syntax)
            else if sign == "-" then (if -v < MIN_INT64 then Number(MIN_INT64, Range) else Number(-v, NoError))
            else (if v > MAX_INT64 then Number(MAX_INT64, Range) else Number(v, NoError))
  {
    var s := sign + digits + rest;
    ScanPast(digits, rest, 0);
    var unsigned := digits + rest;
    if sign == "" {
      assert s == unsigned;
      if digits != "" { assert s[0] == digits[0] && IsDigit(s[0]); }
    } else {
      assert s[1..] == unsigned;
    }
    if s != "" {
      assert (if s[0] == '+' || s[0] == '-' then s[1..] else s) == unsigned;
    }
  }
}
