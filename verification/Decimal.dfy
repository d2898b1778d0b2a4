/** Decimal text: the standard library's formatting and parsing of int64, splitting and joining. */
module Decimal {
  const MAX_INT64 := 0x7fff_ffff_ffff_ffff
  const MIN_INT64 := -0x8000_0000_0000_0000
  const MAX_UINT64: nat := 0xffff_ffff_ffff_ffff

  predicate IsDigit(c: char) {
    '0' <= c <= '9'
  }

  function Digit(d: nat): char
    requires d < 10
    ensures IsDigit(Digit(d)) && Digit(d) as int == '0' as int + d
  {
    '0' + d as char
  }

  function Digits(n: nat): (s: string)
    ensures s != []
    ensures forall i :: 0 <= i < |s| ==> IsDigit(s[i])
  {
    if n < 10 then [Digit(n)] else Digits(n / 10) + [Digit(n % 10)]
  }

  function FormatInt(n: int): string {
    if n < 0 then ['-'] + Digits(-n) else Digits(n)
  }

  /** Decimal notation, digit by digit. */
  lemma FormatDigits(n: int, d: nat)
    requires d < 10
    ensures FormatInt(d) == ["0123456789"[d]]
    ensures n > 0 ==> FormatInt(10 * n + d) == FormatInt(n) + ["0123456789"[d]] && FormatInt(-n) == "-" + FormatInt(n)
  {
  }

  datatype Parsed = Value(n: nat) | SyntaxError | RangeError

  /** Reads digits from the left and gives up at the first bad character or the first overflow. */
  function ParseDigits(s: string, acc: nat): Parsed {
    if s == [] then Value(acc)
    else if !IsDigit(s[0]) then SyntaxError
    else
      var next := acc * 10 + (s[0] as int - '0' as int);
      if next > MAX_UINT64 then RangeError else ParseDigits(s[1..], next)
  }

  /** The value `ParseInt(s, 10, 64)` returns; callers here ignore its error. */
  function ParseInt(s: string): int {
    var negative := s != [] && s[0] == '-';
    var digits := if s != [] && (s[0] == '-' || s[0] == '+') then s[1..] else s;
    if digits == [] then 0
    else
      match ParseDigits(digits, 0)
      case SyntaxError => 0
      case RangeError => if negative then MIN_INT64 else MAX_INT64
      case Value(n) =>
        var v: int := if negative then -(n as int) else n;
        if v < MIN_INT64 then MIN_INT64 else if v > MAX_INT64 then MAX_INT64 else v
  }

  lemma {:induction false} ParseDigitsAppend(a: string, b: string, acc: nat)
    ensures ParseDigits(a, acc).Value? ==> ParseDigits(a + b, acc) == ParseDigits(b, ParseDigits(a, acc).n)
    decreases |a|
  {
    if a == [] {
      assert a + b == b;
    } else if IsDigit(a[0]) {
      var next := acc * 10 + (a[0] as int - '0' as int);
      if next <= MAX_UINT64 {
        ParseDigitsAppend(a[1..], b, next);
        assert (a + b)[1..] == a[1..] + b;
      }
    }
  }

  lemma {:induction false} ParseDigitsOfDigits(n: nat)
    requires n <= MAX_UINT64
    ensures ParseDigits(Digits(n), 0) == Value(n)
  {
    if n >= 10 {
      ParseDigitsOfDigits(n / 10);
      ParseDigitsAppend(Digits(n / 10), [Digit(n % 10)], 0);
    }
  }

  /** Every int64 is read back from its decimal text. */
  lemma ParseFormat(x: int)
    requires MIN_INT64 <= x <= MAX_INT64
    ensures ParseInt(FormatInt(x)) == x
  {
    ParseDigitsOfDigits(if x < 0 then -x else x);
    assert x < 0 ==> FormatInt(x)[1..] == Digits(-x);
  }

  lemma {:induction false} ParseDigitsGivesUp(a: string, b: string, acc: nat)
    ensures !ParseDigits(a, acc).Value? ==> ParseDigits(a + b, acc) == ParseDigits(a, acc)
    decreases |a|
  {
    if a != [] && IsDigit(a[0]) {
      var next := acc * 10 + (a[0] as int - '0' as int);
      if next <= MAX_UINT64 {
        ParseDigitsGivesUp(a[1..], b, next);
        assert (a + b)[1..] == a[1..] + b;
      }
    }
  }

  lemma {:induction false} ParseDigitsOutOfRange(n: nat)
    requires n > MAX_UINT64
    ensures ParseDigits(Digits(n), 0) == RangeError
  {
    var last := [Digit(n % 10)];
    if n / 10 > MAX_UINT64 {
      ParseDigitsOutOfRange(n / 10);
      ParseDigitsGivesUp(Digits(n / 10), last, 0);
    } else {
      ParseDigitsOfDigits(n / 10);
      ParseDigitsAppend(Digits(n / 10), last, 0);
    }
  }

  /** A number beyond int64 is read as the end of the range, and one with something after it as zero. */
  lemma ParseOther(x: int, c: char, rest: string)
    requires !IsDigit(c)
    ensures x > 0x7fff_ffff_ffff_ffff ==> ParseInt(FormatInt(x)) == 0x7fff_ffff_ffff_ffff
    ensures x < -0x8000_0000_0000_0000 ==> ParseInt(FormatInt(x)) == -0x8000_0000_0000_0000
    ensures 0 <= x <= 0x7fff_ffff_ffff_ffff ==> ParseInt(FormatInt(x) + [c] + rest) == 0
  {
    var n: nat := if x < 0 then -x else x;
    if n > MAX_UINT64 {
      ParseDigitsOutOfRange(n);
    } else {
      ParseDigitsOfDigits(n);
      ParseDigitsAppend(Digits(n), [c] + rest, 0);
    }
    assert x < 0 ==> FormatInt(x)[1..] == Digits(n);
    assert FormatInt(x) + [c] + rest == FormatInt(x) + ([c] + rest);
  }

  /** A plus sign is read, and a text without digits is zero. */
  lemma ParseSigns(x: int)
    requires 0 <= x <= 0x7fff_ffff_ffff_ffff
    ensures ParseInt("+" + FormatInt(x)) == x && ParseInt("") == ParseInt("+") == ParseInt("-") == 0
  {
    assert ("+" + FormatInt(x))[1..] == Digits(x);
    ParseDigitsOfDigits(x);
  }

  lemma {:induction false} DigitsInjective(m: nat, n: nat)
    requires Digits(m) == Digits(n)
    ensures m == n
    decreases m
  {
    if m >= 10 && n >= 10 {
      assert Digits(m)[..|Digits(m)| - 1] == Digits(m / 10);
      assert Digits(n)[..|Digits(n)| - 1] == Digits(n / 10);
      DigitsInjective(m / 10, n / 10);
      assert Digits(m)[|Digits(m)| - 1] == Digit(m % 10);
      assert Digits(n)[|Digits(n)| - 1] == Digit(n % 10);
    } else {
      assert |Digits(m)| == 1 <==> m < 10;
      assert |Digits(n)| == 1 <==> n < 10;
    }
  }

  // ---------------------------------------------------------------- splitting and joining

  function Split(s: string, sep: char): (parts: seq<string>)
    ensures parts != []
  {
    if s == [] then [[]]
    else
      var rest := Split(s[1..], sep);
      if s[0] == sep then [[]] + rest else [[s[0]] + rest[0]] + rest[1..]
  }

  /** One part more than there are separators. */
  lemma {:induction false} SplitCount(s: string, sep: char)
    ensures |Split(s, sep)| == multiset(s)[sep] + 1
    decreases |s|
  {
    if s != [] {
      SplitCount(s[1..], sep);
      assert s == [s[0]] + s[1..];
    }
  }

  function Join(parts: seq<string>, sep: char): string {
    if parts == [] then []
    else if |parts| == 1 then parts[0]
    else parts[0] + [sep] + Join(parts[1..], sep)
  }

  lemma {:induction false} SplitPart(part: string, sep: char)
    requires sep !in part
    ensures Split(part, sep) == [part]
    decreases |part|
  {
    if part != [] {
      SplitPart(part[1..], sep);
      assert [part[0]] + part[1..] == part;
    }
  }

  lemma {:induction false} SplitFirst(part: string, rest: string, sep: char)
    requires sep !in part
    ensures Split(part + [sep] + rest, sep) == [part] + Split(rest, sep)
    decreases |part|
  {
    var whole := part + [sep] + rest;
    if part == [] {
      assert whole[1..] == rest;
    } else {
      SplitFirst(part[1..], rest, sep);
      assert whole[1..] == part[1..] + [sep] + rest;
      assert [part[0]] + part[1..] == part;
    }
  }

  /** Splitting undoes joining, except that the empty list comes back as one empty part. */
  lemma {:induction false} SplitJoin(parts: seq<string>, sep: char)
    requires forall i :: 0 <= i < |parts| ==> sep !in parts[i]
    ensures Split(Join(parts, sep), sep) == if parts == [] then [[]] else parts
    decreases |parts|
  {
    if |parts| == 1 {
      SplitPart(parts[0], sep);
    } else if |parts| > 1 {
      SplitJoin(parts[1..], sep);
      SplitFirst(parts[0], Join(parts[1..], sep), sep);
    }
  }

  lemma NoSeparator(x: int, sep: char)
    requires sep != '-' && !IsDigit(sep)
    ensures sep !in FormatInt(x)
  {
  }
}
