/** Placeholders in the sentences of the error vocabulary: a name in braces. */
module Placeholders {
  import opened Texts

  predicate NameStart(c: char) {
    'a' <= c <= 'z' || c == '_'
  }

  predicate NameChar(c: char) {
    NameStart(c) || IsDigit(c)
  }

  predicate IsName(name: string) {
    name != "" && NameStart(name[0]) && forall c <- name :: NameChar(c)
  }

  /** The characters of names, one by one. */
  lemma NameCharsAre(c: char)
    ensures NameStart(c) <==> c in "abcdefghijklmnopqrstuvwxyz_"
    ensures NameChar(c) <==> c in "abcdefghijklmnopqrstuvwxyz_0123456789"
  {
  }

  /** A name: a letter or an underscore, and then any of these and digits. */
  lemma NamesAre(name: string)
    ensures IsName(name) <==>
      && |name| >= 1 && name[0] in "abcdefghijklmnopqrstuvwxyz_"
      && forall i :: 0 <= i < |name| ==> name[i] in "abcdefghijklmnopqrstuvwxyz_0123456789"
  {
    if |name| >= 1 { NameCharsAre(name[0]); }
    forall i | 0 <= i < |name|
      ensures name[i] in name && (NameChar(name[i]) <==> name[i] in "abcdefghijklmnopqrstuvwxyz_0123456789")
    {
      NameCharsAre(name[i]);
    }
  }

  function Braced(name: string): string {
    "{" + name + "}"
  }

  function NameLength(s: string): (n: nat)
    ensures n <= |s|
    ensures forall i :: 0 <= i < n ==> NameChar(s[i])
    ensures n < |s| ==> !NameChar(s[n])
  {
    if s == "" || !NameChar(s[0]) then 0 else 1 + NameLength(s[1..])
  }

  /** The name of the placeholder a text begins with, or nothing. */
  function NameAt(s: string): (name: string)
    ensures name != "" ==> IsName(name) && Braced(name) <= s
  {
    if s == "" || s[0] != '{' then ""
    else
      var n := NameLength(s[1..]);
      if n > 0 && NameStart(s[1]) && n + 1 < |s| && s[n + 1] == '}' then s[1..n + 1] else ""
  }

  /** The names of all placeholders in a text, from left to right. */
  function Scan(s: string): (names: seq<string>)
    decreases |s|
  {
    if s == "" then []
    else
      var name := NameAt(s);
      if name == "" then Scan(s[1..]) else [name] + Scan(s[|name| + 2..])
  }

  lemma NameAtIs(name: string, rest: string)
    requires IsName(name)
    ensures NameAt(Braced(name) + rest) == name
  {
    var s := Braced(name) + rest;
    var n := NameLength(s[1..]);
    assert forall i :: 0 <= i < |name| ==> s[1..][i] == name[i] && name[i] in name;
    assert s[1..][|name|] == '}';
    assert n == |name|;
    assert s[1..n + 1] == name;
  }

  /** A placeholder stands at a place in a text. */
  ghost predicate OccursAt(s: string, i: nat) {
    i <= |s| && exists name :: IsName(name) && Braced(name) <= s[i..]
  }

  lemma OccursHere(s: string)
    ensures OccursAt(s, 0) <==> NameAt(s) != ""
  {
    assert s[0..] == s;
    if name :| IsName(name) && Braced(name) <= s {
      assert s == Braced(name) + s[|name| + 2..];
      NameAtIs(name, s[|name| + 2..]);
    }
  }

  /** Scanning finds a placeholder exactly when there is one. */
  lemma {:induction false} ScanFinds(s: string)
    ensures Scan(s) != [] <==> exists i :: OccursAt(s, i)
  {
    OccursHere(s);
    if s != "" {
      forall i: nat | i > 0
        ensures OccursAt(s, i) <==> OccursAt(s[1..], i - 1)
      {
        if i <= |s| { assert s[1..][i - 1..] == s[i..]; }
      }
      ScanFinds(s[1..]);
      if i: nat :| OccursAt(s[1..], i) {
        assert OccursAt(s, i + 1);
      }
    }
  }

  predicate NoBrace(s: string) {
    '{' !in s && '}' !in s
  }

  /** Pieces of text with placeholders between them. */
  function Interleave(pieces: seq<string>, names: seq<string>): string
    requires |pieces| == |names| + 1
  {
    if names == [] then pieces[0]
    else pieces[0] + Braced(names[0]) + Interleave(pieces[1..], names[1..])
  }

  ghost predicate Shaped(s: string, pieces: seq<string>, names: seq<string>) {
    && |pieces| == |names| + 1
    && (forall piece <- pieces :: NoBrace(piece))
    && (forall name <- names :: IsName(name))
    && s == Interleave(pieces, names)
  }

  /** What a sentence must look like: its only braces are those of the given placeholders, in order. */
  ghost predicate HasPlaceholders(s: string, names: seq<string>) {
    exists pieces :: Shaped(s, pieces, names)
  }

  lemma {:induction false} EnoughBraces(s: string)
    ensures Count('{', s) >= |Scan(s)| && Count('}', s) >= |Scan(s)|
    decreases |s|
  {
    if s != "" {
      var name := NameAt(s);
      if name == "" {
        EnoughBraces(s[1..]);
      } else {
        EnoughBraces(s[|name| + 2..]);
        CutPlaceholder(s, name);
      }
    }
  }

  lemma CutPlaceholder(s: string, name: string)
    requires IsName(name) && Braced(name) <= s
    ensures s == Braced(name) + s[|name| + 2..]
    ensures Count('{', s) == 1 + Count('{', s[|name| + 2..])
    ensures Count('}', s) == 1 + Count('}', s[|name| + 2..])
  {
    var rest := s[|name| + 2..];
    assert s == Braced(name) + rest;
    forall c | c == '{' || c == '}'
      ensures Count(c, s) == 1 + Count(c, rest)
    {
      CountAppend(c, Braced(name), rest);
      CountAppend(c, "{" + name, "}");
      CountAppend(c, "{", name);
      CountIsZero(c, name);
    }
  }

  lemma PlaceholderFirst(name: string, s: string, rest: seq<string>, names: seq<string>)
      returns (pieces: seq<string>)
    requires Shaped(s, rest, names) && IsName(name)
    ensures Shaped(Braced(name) + s, pieces, [name] + names)
  {
    pieces := [""] + rest;
    assert pieces[1..] == rest && ([name] + names)[1..] == names;
  }

  lemma LongerPiece(c: char, s: string, rest: seq<string>, names: seq<string>) returns (pieces: seq<string>)
    requires Shaped(s, rest, names) && c != '{' && c != '}'
    ensures Shaped([c] + s, pieces, names)
  {
    pieces := [[c] + rest[0]] + rest[1..];
    assert NoBrace(rest[0]);
    assert pieces[1..] == rest[1..];
    assert Interleave(pieces, names) == [c] + Interleave(rest, names);
  }

  /** When the braces are exactly those of the placeholders found, the text is made of them and of
      pieces without braces. */
  lemma {:induction false} CountedIsShaped(s: string) returns (pieces: seq<string>)
    requires Count('{', s) == |Scan(s)| == Count('}', s)
    ensures Shaped(s, pieces, Scan(s))
    decreases |s|
  {
    if s == "" {
      return [""];
    }
    var name := NameAt(s);
    if name == "" {
      EnoughBraces(s[1..]);
      var rest := CountedIsShaped(s[1..]);
      pieces := LongerPiece(s[0], s[1..], rest, Scan(s));
      assert s == [s[0]] + s[1..];
    } else {
      CutPlaceholder(s, name);
      var rest := CountedIsShaped(s[|name| + 2..]);
      pieces := PlaceholderFirst(name, s[|name| + 2..], rest, Scan(s[|name| + 2..]));
    }
  }

  lemma {:induction false} ShapedIsCounted(s: string, pieces: seq<string>, names: seq<string>)
    requires Shaped(s, pieces, names)
    ensures Scan(s) == names && Count('{', s) == |names| == Count('}', s)
    decreases |names|, |s|
  {
    if pieces[0] != "" {
      var shorter := [pieces[0][1..]] + pieces[1..];
      assert shorter[1..] == pieces[1..];
      assert NoBrace(pieces[0]);
      assert pieces[0] == [pieces[0][0]] + pieces[0][1..];
      assert forall piece <- shorter :: piece == pieces[0][1..] || piece in pieces;
      assert s == [pieces[0][0]] + Interleave(shorter, names);
      assert s[1..] == Interleave(shorter, names);
      ShapedIsCounted(s[1..], shorter, names);
    } else if names != [] {
      var rest := Interleave(pieces[1..], names[1..]);
      assert s == Braced(names[0]) + rest;
      NameAtIs(names[0], rest);
      CutPlaceholder(s, names[0]);
      assert s[|names[0]| + 2..] == rest;
      ShapedIsCounted(rest, pieces[1..], names[1..]);
    }
  }

  predicate Counted(s: string, names: seq<string>) {
    Scan(s) == names && Count('{', s) == |names| == Count('}', s)
  }

  lemma ShapeIsDecided(s: string, names: seq<string>)
    ensures HasPlaceholders(s, names) <==> Counted(s, names)
  {
    if pieces :| Shaped(s, pieces, names) {
      ShapedIsCounted(s, pieces, names);
    }
    if Count('{', s) == |Scan(s)| == Count('}', s) {
      var pieces := CountedIsShaped(s);
    }
  }

  /** Checks the placeholders of a sentence against those expected of it. */
  method ValidatePlaceholders(sentence: string, expected: seq<string>) returns (valid: bool)
    ensures valid <==> HasPlaceholders(sentence, expected)
  {
    ShapeIsDecided(sentence, expected);
    valid := CountPlaceholders(sentence, expected);
  }

  method CountPlaceholders(sentence: string, expected: seq<string>) returns (valid: bool)
    ensures valid <==> Counted(sentence, expected)
  {
    var placeholders := Scan(sentence);
    if Count('{', sentence) != |placeholders| || Count('}', sentence) != |placeholders| {
      return false;
    }
    if |placeholders| != |expected| {
      return false;
    }
    for index := 0 to |placeholders|
      invariant placeholders[..index] == expected[..index]
    {
      if placeholders[index] != expected[index] {
        return false;
      }
    }
    return true;
  }
}
