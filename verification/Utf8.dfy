/** Cutting text to a byte limit without cutting a character, and the bounded printer on top of it. */
module Utf8 {
  import opened Common
  import Texts

  predicate Tail(b: Byte) {
    0x80 <= b <= 0xBF
  }

  /** Length in bytes of the character some bytes begin with, by the syntax in section 4 of RFC 3629;
      zero when they begin with none. */
  function CharLength(s: seq<Byte>): (n: nat)
    ensures n <= 4 && n <= |s|
  {
    if s == [] then 0
    else if s[0] <= 0x7F then 1
    else if |s| < 2 then 0
    else if 0xC2 <= s[0] <= 0xDF then (if Tail(s[1]) then 2 else 0)
    else if |s| < 3 then 0
    else if 0xE0 <= s[0] <= 0xEF then
      var second :=
        if s[0] == 0xE0 then 0xA0 <= s[1] <= 0xBF
        else if s[0] == 0xED then 0x80 <= s[1] <= 0x9F
        else Tail(s[1]);
      if second && Tail(s[2]) then 3 else 0
    else if |s| < 4 then 0
    else if 0xF0 <= s[0] <= 0xF4 then
      var second :=
        if s[0] == 0xF0 then 0x90 <= s[1] <= 0xBF
        else if s[0] == 0xF4 then 0x80 <= s[1] <= 0x8F
        else Tail(s[1]);
      if second && Tail(s[2]) && Tail(s[3]) then 4 else 0
    else 0
  }

  predicate Valid(s: seq<Byte>)
    decreases |s|
  {
    s == [] || (CharLength(s) > 0 && Valid(s[CharLength(s)..]))
  }

  // ----- Valid text is what encoding gives -----

  /** A Unicode scalar value: any code point that is not a surrogate. */
  type Scalar = c: int | 0 <= c < 0xD800 || 0xE000 <= c < 0x11_0000 witness 0

  function Encode(c: Scalar): seq<Byte> {
    if c < 0x80 then [c]
    else if c < 0x800 then [0xC0 + c / 0x40, 0x80 + c % 0x40]
    else if c < 0x1_0000 then [0xE0 + c / 0x1000, 0x80 + c / 0x40 % 0x40, 0x80 + c % 0x40]
    else [0xF0 + c / 0x4_0000, 0x80 + c / 0x1000 % 0x40, 0x80 + c / 0x40 % 0x40, 0x80 + c % 0x40]
  }

  function EncodeAll(text: seq<Scalar>): seq<Byte> {
    if text == [] then [] else Encode(text[0]) + EncodeAll(text[1..])
  }

  function Decode(s: seq<Byte>): int
    requires CharLength(s) > 0
  {
    match CharLength(s)
    case 1 => s[0]
    case 2 => (s[0] - 0xC0) as int * 0x40 + (s[1] - 0x80)
    case 3 => (s[0] - 0xE0) as int * 0x1000 + (s[1] - 0x80) as int * 0x40 + (s[2] - 0x80)
    case _ =>
      (s[0] - 0xF0) as int * 0x4_0000 + (s[1] - 0x80) as int * 0x1000 + (s[2] - 0x80) as int * 0x40 + (s[3] - 0x80)
  }

  lemma EncodedIsChar(c: Scalar, rest: seq<Byte>)
    ensures CharLength(Encode(c) + rest) == |Encode(c)|
  {
  }

  lemma SixBitDigits(a: nat, b: nat, c: nat, d: nat)
    requires b < 0x40 && c < 0x40 && d < 0x40
    ensures var v := a * 0x4_0000 + b * 0x1000 + c * 0x40 + d;
      && v / 0x4_0000 == a && v / 0x1000 == a * 0x40 + b
      && v / 0x1000 % 0x40 == b && v / 0x40 % 0x40 == c && v % 0x40 == d
  {
    var v := a * 0x4_0000 + b * 0x1000 + c * 0x40 + d;
    OneDigit(v, a * 0x1000 + b * 0x40 + c, d);
    TwoDigits(v, a * 0x40 + b, c * 0x40 + d);
    ThreeDigits(v, a, b * 0x1000 + c * 0x40 + d);
    OneDigit(a * 0x1000 + b * 0x40 + c, a * 0x40 + b, c);
    OneDigit(a * 0x40 + b, a, b);
  }

  lemma OneDigit(v: nat, high: nat, low: nat)
    requires low < 0x40 && v == 0x40 * high + low
    ensures v / 0x40 == high && v % 0x40 == low
  {
  }

  lemma TwoDigits(v: nat, high: nat, low: nat)
    requires low < 0x1000 && v == 0x1000 * high + low
    ensures v / 0x1000 == high
  {
  }

  lemma ThreeDigits(v: nat, high: nat, low: nat)
    requires low < 0x4_0000 && v == 0x4_0000 * high + low
    ensures v / 0x4_0000 == high
  {
  }

  lemma CharIsEncoded(s: seq<Byte>)
    requires CharLength(s) > 0
    ensures (0 <= Decode(s) < 0xD800 || 0xE000 <= Decode(s) < 0x11_0000) && Encode(Decode(s)) == s[..CharLength(s)]
  {
    match CharLength(s)
    case 1 =>
    case 2 => OneDigit(Decode(s), s[0] - 0xC0, s[1] - 0x80);
    case 3 => ThreeBytesAreEncoded(s);
    case _ => FourBytesAreEncoded(s);
  }

  lemma ThreeBytesAreEncoded(s: seq<Byte>)
    requires CharLength(s) == 3
    ensures (0x800 <= Decode(s) < 0xD800 || 0xE000 <= Decode(s) < 0x1_0000) && Encode(Decode(s)) == s[..3]
  {
    SixBitDigits(0, s[0] - 0xE0, s[1] - 0x80, s[2] - 0x80);
  }

  lemma FourBytesAreEncoded(s: seq<Byte>)
    requires CharLength(s) == 4
    ensures 0x1_0000 <= Decode(s) < 0x11_0000 && Encode(Decode(s)) == s[..4]
  {
    SixBitDigits(s[0] - 0xF0, s[1] - 0x80, s[2] - 0x80, s[3] - 0x80);
  }

  /** A byte sequence is valid exactly when it encodes some sequence of scalar values. */
  lemma {:induction false} EncodedIsValid(text: seq<Scalar>)
    ensures Valid(EncodeAll(text))
  {
    if text != [] {
      EncodedIsChar(text[0], EncodeAll(text[1..]));
      EncodedIsValid(text[1..]);
      assert EncodeAll(text)[|Encode(text[0])|..] == EncodeAll(text[1..]);
    }
  }

  lemma {:induction false} ValidIsEncoded(s: seq<Byte>) returns (text: seq<Scalar>)
    requires Valid(s)
    ensures EncodeAll(text) == s
    decreases |s|
  {
    if s == [] {
      text := [];
    } else {
      CharIsEncoded(s);
      var rest := ValidIsEncoded(s[CharLength(s)..]);
      text := [Decode(s)] + rest;
      EncodeOneMore(Decode(s), rest);
      assert s == s[..CharLength(s)] + s[CharLength(s)..];
    }
  }

  lemma EncodeOneMore(c: Scalar, rest: seq<Scalar>)
    ensures EncodeAll([c] + rest) == Encode(c) + EncodeAll(rest)
  {
    assert ([c] + rest)[1..] == rest;
  }

  // ----- Cutting -----

  /** The text itself when it fits, otherwise its longest valid beginning within the limit. */
  ghost predicate IsCut(value: seq<Byte>, limit: nat, cut: seq<Byte>) {
    if |value| <= limit then cut == value
    else
      && cut <= value && |cut| <= limit && Valid(cut)
      && forall n :: |cut| < n <= limit ==> !Valid(value[..n])
  }

  method TruncateUtf8(value: seq<Byte>, limit: nat) returns (cut: seq<Byte>)
    ensures IsCut(value, limit, cut)
    ensures Valid(value) ==> Valid(cut) && (|value| > limit ==> |cut| + 3 >= limit)
  {
    if |value| <= limit {
      return value;
    }
    var end := limit;
    while end > 0 && !Valid(value[..end])
      invariant 0 <= end <= limit
      invariant forall n :: end < n <= limit ==> !Valid(value[..n])
    {
      end := end - 1;
    }
    if Valid(value) {
      ghost var near := BoundaryNearby(value, limit);
      assert near <= end;
    }
    return value[..end];
  }

  lemma CutIsUnique(value: seq<Byte>, limit: nat, a: seq<Byte>, b: seq<Byte>)
    requires IsCut(value, limit, a) && IsCut(value, limit, b)
    ensures a == b
  {
    if |value| > limit {
      assert a == value[..|a|] && b == value[..|b|];
    }
  }

  lemma CharLengthOfPrefix(s: seq<Byte>, n: nat)
    requires CharLength(s) > 0 && CharLength(s) <= n <= |s|
    ensures CharLength(s[..n]) == CharLength(s)
  {
  }

  /** In valid text a character boundary lies at most three bytes before any position. */
  lemma {:induction false} BoundaryNearby(s: seq<Byte>, n: nat) returns (m: nat)
    requires Valid(s) && n <= |s|
    ensures m <= n <= m + 3 && Valid(s[..m])
    decreases |s|
  {
    var c := CharLength(s);
    if n < c || s == [] {
      m := 0;
    } else {
      var rest := BoundaryNearby(s[c..], n - c);
      m := c + rest;
      CharLengthOfPrefix(s, m);
      assert s[..m][c..] == s[c..][..rest];
    }
  }

  // ----- The bounded printer -----

  const DISPLAY_LIMIT: nat := 65536

  class Output {
    var text: seq<Byte>

    constructor ()
      ensures text == []
    {
      text := [];
    }

    method WriteString(bytes: seq<Byte>)
      modifies this
      ensures text == old(text) + bytes
    {
      text := text + bytes;
    }
  }

  const NEWLINE: seq<Byte> := [10]

  function Nothing(subject: seq<Byte>): seq<Byte> {
    Ascii("No ") + subject + Ascii(".\n")
  }

  function Notice(subject: seq<Byte>): seq<Byte> {
    Ascii("[") + subject + Ascii(" truncated; showing at most 65536 bytes.]\n")
  }

  function Line(content: seq<Byte>): seq<Byte> {
    if content == [] || content[|content| - 1] == 10 then content else content + [10]
  }

  lemma LimitText()
    ensures Texts.Itoa(DISPLAY_LIMIT) == "65536"
    ensures " truncated; showing at most " + Texts.Itoa(DISPLAY_LIMIT) + " bytes.]" + "\n" ==
            " truncated; showing at most 65536 bytes.]\n"
  {
    assert Texts.Decimal(65) == "65";
    assert Texts.Decimal(655) == "655";
    assert Texts.Decimal(6553) == "6553";
    assert Texts.Decimal(65536) == "65536";
  }

  /** Prints at most the limit of the content, and one newline more when it does not end in one; says
      so when something was left out, here or before; and says that there is nothing only if nothing
      was left out either. */
  method PrintBoundedOutput(output: Output, content: seq<Byte>, truncated: bool, subject: seq<Byte>)
    modifies output
    ensures content == [] && !truncated ==> output.text == old(output.text) + Nothing(subject)
    ensures content != [] || truncated ==> exists cut ::
      && IsCut(content, 65536, cut)
      && |Line(cut)| <= 65537
      && output.text == old(output.text) + Line(cut) +
                        if truncated || cut != content then Notice(subject) else []
  {
    var shown, cutOff := content, truncated;
    if |content| > DISPLAY_LIMIT {
      shown := TruncateUtf8(content, DISPLAY_LIMIT);
      cutOff := true;
    }
    assert IsCut(content, DISPLAY_LIMIT, shown);
    if shown == [] && !cutOff {
      assert Ascii(".") + NEWLINE == Ascii(".\n");
      output.WriteString(Ascii("No ") + subject + (Ascii(".") + NEWLINE));
      return;
    }
    if shown != [] {
      output.WriteString(shown);
      if shown[|shown| - 1] != 10 {
        output.WriteString(NEWLINE);
      }
    }
    assert output.text == old(output.text) + Line(shown);
    if cutOff {
      LimitText();
      var text := " truncated; showing at most " + Texts.Itoa(DISPLAY_LIMIT) + " bytes.]" + "\n";
      output.WriteString(Ascii("[") + subject + Ascii(text));
    }
  }
}
