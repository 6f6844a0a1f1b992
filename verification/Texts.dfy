/** Text functions of the client: splitting, joining, counting, replacing, numbers in decimal. */
module Texts {
  import opened Common

  /** The parts of a text between the separators in it. */
  function Split(s: string, separator: char): (parts: seq<string>)
    ensures parts != []
  {
    if s == "" then [""]
    else
      var rest := Split(s[1..], separator);
      if s[0] == separator then [""] + rest else [[s[0]] + rest[0]] + rest[1..]
  }

  function Join(parts: seq<string>, separator: string): string {
    if |parts| == 0 then ""
    else if |parts| == 1 then parts[0]
    else parts[0] + separator + Join(parts[1..], separator)
  }

  lemma {:induction false} JoinSplit(s: string, separator: char)
    ensures Join(Split(s, separator), [separator]) == s
    ensures forall part <- Split(s, separator) :: separator !in part
  {
    if s != "" {
      JoinSplit(s[1..], separator);
      var rest := Split(s[1..], separator);
      assert s == [s[0]] + s[1..];
      if s[0] == separator {
        assert ([""] + rest)[1..] == rest;
      } else {
        JoinLonger(s[0], rest, [separator]);
      }
    }
  }

  lemma JoinLonger(c: char, parts: seq<string>, separator: string)
    requires parts != []
    ensures Join([[c] + parts[0]] + parts[1..], separator) == [c] + Join(parts, separator)
  {
    var longer := [[c] + parts[0]] + parts[1..];
    assert longer[1..] == parts[1..];
    if |parts| > 1 {
      Associative([c], parts[0], separator);
      Associative([c], parts[0] + separator, Join(parts[1..], separator));
    }
  }

  lemma {:induction false} SplitOnce(head: string, rest: string, separator: char)
    requires separator !in head
    ensures Split(head + [separator] + rest, separator) == [head] + Split(rest, separator)
    ensures Split(head, separator) == [head]
  {
    var s := head + [separator] + rest;
    if head == "" {
      assert s[1..] == rest;
    } else {
      SplitOnce(head[1..], rest, separator);
      assert head == [head[0]] + head[1..];
      assert s[1..] == head[1..] + [separator] + rest;
    }
  }

  lemma {:induction false} SplitJoin(parts: seq<string>, separator: char)
    requires parts != [] && forall part <- parts :: separator !in part
    ensures Split(Join(parts, [separator]), separator) == parts
  {
    if |parts| == 1 {
      SplitOnce(parts[0], "", separator);
    } else {
      SplitJoin(parts[1..], separator);
      SplitOnce(parts[0], Join(parts[1..], [separator]), separator);
    }
  }

  function Count(c: char, s: string): nat {
    if s == "" then 0 else (if s[0] == c then 1 else 0) + Count(c, s[1..])
  }

  lemma {:induction false} CountAppend(c: char, a: string, b: string)
    ensures Count(c, a + b) == Count(c, a) + Count(c, b)
  {
    if a == "" {
      assert a + b == b;
    } else {
      CountAppend(c, a[1..], b);
      assert (a + b)[1..] == a[1..] + b;
    }
  }

  lemma {:induction false} CountIsZero(c: char, s: string)
    ensures Count(c, s) == 0 <==> c !in s
  {
    if s != "" { CountIsZero(c, s[1..]); }
  }

  /** Every occurrence replaced, from the left, without looking at what was put in. */
  function ReplaceAll(s: string, part: string, replacement: string): string
    requires part != ""
  {
    if |s| < |part| then s
    else if s[..|part|] == part then replacement + ReplaceAll(s[|part|..], part, replacement)
    else [s[0]] + ReplaceAll(s[1..], part, replacement)
  }

  predicate IsDigit(c: char) {
    '0' <= c <= '9'
  }

  function Decimal(n: nat): (s: string)
    ensures s != "" && forall c <- s :: IsDigit(c)
  {
    var digit := ['0' + (n % 10) as char];
    if n < 10 then digit else Decimal(n / 10) + digit
  }

  function Itoa(n: int): (s: string)
    ensures s != "" && forall c <- s :: IsDigit(c) || c == '-'
  {
    if n < 0 then "-" + Decimal(-n) else Decimal(n)
  }

  function DecimalValue(s: string): (n: nat)
    requires forall c <- s :: IsDigit(c)
  {
    if s == "" then 0
    else
      assert IsDigit(s[|s| - 1]);
      10 * DecimalValue(s[..|s| - 1]) + (s[|s| - 1] as int - '0' as int)
  }

  /** An optional sign and digits, within 64 bits. */
  function Atoi(s: string): Option<int> {
    var signed := s != "" && (s[0] == '-' || s[0] == '+');
    var digits := if signed then s[1..] else s;
    if digits == "" || exists c <- digits :: !IsDigit(c) then None
    else
      var size: int := DecimalValue(digits);
      var n := if signed && s[0] == '-' then -size else size;
      if -0x8000_0000_0000_0000 <= n < 0x8000_0000_0000_0000 then Some(n) else None
  }

  lemma {:induction false} DecimalRoundTrip(n: nat)
    ensures DecimalValue(Decimal(n)) == n
  {
    if n >= 10 {
      DecimalRoundTrip(n / 10);
      var s := Decimal(n);
      assert s[..|s| - 1] == Decimal(n / 10);
    }
  }

  lemma AtoiItoa(n: int)
    requires -0x8000_0000_0000_0000 <= n < 0x8000_0000_0000_0000
    ensures Atoi(Itoa(n)) == Some(n)
  {
    if n < 0 {
      DecimalRoundTrip(-n);
      assert Itoa(n)[1..] == Decimal(-n);
    } else {
      DecimalRoundTrip(n);
      assert IsDigit(Decimal(n)[0]);
    }
  }

  function Zeros(k: nat): string {
    seq(k, i => '0')
  }

  lemma {:induction false} ZerosDoNotCount(k: nat, s: string)
    requires forall c <- s :: IsDigit(c)
    ensures (forall c <- Zeros(k) + s :: IsDigit(c)) && DecimalValue(Zeros(k) + s) == DecimalValue(s)
  {
    var t := Zeros(k) + s;
    if s != "" {
      var n := |s| - 1;
      ZerosDoNotCount(k, s[..n]);
      assert t[..|t| - 1] == Zeros(k) + s[..n];
    } else if k > 0 {
      ZerosDoNotCount(k - 1, s);
      assert t[..|t| - 1] == Zeros(k - 1) + s;
    } else {
      assert t == s;
    }
  }

  /** Digits are zeros and then the decimal text of their value, or zeros alone. */
  lemma {:induction false} DigitsAre(s: string) returns (k: nat)
    requires s != "" && forall c <- s :: IsDigit(c)
    ensures s == Zeros(k) + Decimal(DecimalValue(s))
  {
    var n := |s| - 1;
    var front, last := s[..n], s[n];
    var digit := last as int - '0' as int;
    assert IsDigit(last) && s == front + [last] && last == '0' + digit as char;
    if front == "" || DecimalValue(front) == 0 {
      AllZeros(front);
      k := n;
    } else {
      k := DigitsAre(front);
      assert DecimalValue(s) / 10 == DecimalValue(front) && DecimalValue(s) % 10 == digit;
      Associative(Zeros(k), Decimal(DecimalValue(front)), [last]);
    }
  }

  lemma {:induction false} AllZeros(s: string)
    requires (forall c <- s :: IsDigit(c)) && DecimalValue(s) == 0
    ensures s == Zeros(|s|)
  {
    if s != "" {
      var n := |s| - 1;
      assert IsDigit(s[n]);
      AllZeros(s[..n]);
      assert s == s[..n] + [s[n]];
    }
  }

  /** A text for a number: perhaps a sign, perhaps zeros, and the number in decimal. */
  predicate IsNumeral(s: string, sign: string, k: nat, n: int) {
    && (if n < 0 then sign == "-" else if n > 0 then sign in {"", "+"} else sign in {"", "+", "-"})
    && s == sign + (Zeros(k) + Decimal(if n < 0 then -n else n))
  }

  /** Which texts are read as which number. */
  lemma AtoiIs(s: string, n: int)
    ensures Atoi(s) == Some(n) <==>
            -0x8000_0000_0000_0000 <= n < 0x8000_0000_0000_0000 && exists sign, k :: IsNumeral(s, sign, k, n)
  {
    if Atoi(s) == Some(n) {
      var signed := s[0] == '-' || s[0] == '+';
      var digits := if signed then s[1..] else s;
      var k := DigitsAre(digits);
      var sign := if signed then [s[0]] else "";
      assert s == sign + digits;
      assert IsNumeral(s, sign, k, n);
    }
    if sign, k :| IsNumeral(s, sign, k, n) {
      NumeralRead(s, sign, k, n);
    }
  }

  lemma NumeralRead(s: string, sign: string, k: nat, n: int)
    requires IsNumeral(s, sign, k, n)
    ensures -0x8000_0000_0000_0000 <= n < 0x8000_0000_0000_0000 ==> Atoi(s) == Some(n)
  {
    var size: nat := if n < 0 then -n else n;
    var digits := Zeros(k) + Decimal(size);
    ZerosDoNotCount(k, Decimal(size));
    DecimalRoundTrip(size);
    if sign == "" {
      assert s == digits;
      PlainRead(digits);
    } else {
      SignedRead(sign[0], digits);
      assert s == [sign[0]] + digits;
    }
  }

  lemma PlainRead(digits: string)
    requires digits != "" && forall c <- digits :: IsDigit(c)
    ensures DecimalValue(digits) < 0x8000_0000_0000_0000 ==> Atoi(digits) == Some(DecimalValue(digits))
  {
    assert IsDigit(digits[0]);
  }

  lemma SignedRead(sign: char, digits: string)
    requires digits != "" && (forall c <- digits :: IsDigit(c)) && (sign == '+' || sign == '-')
    ensures var n: int := if sign == '-' then 0 - DecimalValue(digits) else DecimalValue(digits);
      -0x8000_0000_0000_0000 <= n < 0x8000_0000_0000_0000 ==> Atoi([sign] + digits) == Some(n)
  {
    assert ([sign] + digits)[1..] == digits;
  }
}
