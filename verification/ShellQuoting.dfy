/** The environment file of a local run: written with shell quoting, read back by a shell. */
module ShellQuoting {
  import opened Common
  import opened Strings

  // ----- Writing -----

  /** Every single quote becomes: end of quotes, an escaped quote, quotes again. */
  function EscapeQuotes(value: string): string {
    if value == "" then ""
    else (if value[0] == '\'' then "'\\''" else [value[0]]) + EscapeQuotes(value[1..])
  }

  function ShellQuote(value: string): string {
    "'" + EscapeQuotes(value) + "'"
  }

  function ExportLine(key: string, value: string): string {
    "export " + key + "=" + ShellQuote(value) + "\n"
  }

  function Render(keys: seq<string>, environment: map<string, string>): string
    requires forall key <- keys :: key in environment
  {
    if keys == [] then ""
    else ExportLine(keys[0], environment[keys[0]]) + Render(keys[1..], environment)
  }

  /** The file: one line per variable, in the order of their names. */
  ghost function EnvironmentFile(environment: map<string, string>): string {
    Render(Sorted(environment.Keys), environment)
  }

  // ----- Reading, by the quoting rules of the POSIX.1-2017 Shell Command Language -----

  datatype Mode = Unquoted | Escaped | SingleQuoted

  /** Unquoted characters that do more than stand for themselves, apart from those handled below. */
  predicate Special(c: char) {
    c in "|&;<>()$`\"*?[#~!{}\t\0"
  }

  /** Splits text into commands of words. A word is absent until something begins it. A backslash
      keeps the next character (section 2.2.1), except that it joins lines; between single quotes every
      character keeps its meaning (section 2.2.2). Special characters outside quotes are not modelled,
      and no shell text holds a NUL. */
  function Commands(text: string, mode: Mode, word: Option<string>, words: seq<string>): Option<seq<seq<string>>>
    decreases |text|
  {
    if text == "" then
      if mode == Unquoted then Some(Finish(word, words)) else None
    else
      var c, rest := text[0], text[1..];
      if c == '\0' then None
      else
        match mode
        case Escaped =>
          if c == '\n' then Commands(rest, Unquoted, word, words)
          else Commands(rest, Unquoted, Some(Prefix(word) + [c]), words)
        case SingleQuoted =>
          if c == '\'' then Commands(rest, Unquoted, word, words)
          else Commands(rest, SingleQuoted, Some(Prefix(word) + [c]), words)
        case Unquoted =>
          if c == '\'' then Commands(rest, SingleQuoted, Some(Prefix(word)), words)
          else if c == '\\' then Commands(rest, Escaped, word, words)
          else if c == ' ' then Commands(rest, Unquoted, None, EndWord(word, words))
          else if c == '\n' then
            match Commands(rest, Unquoted, None, [])
            case None => None
            case Some(more) => Some(Finish(word, words) + more)
          else if Special(c) then None
          else Commands(rest, Unquoted, Some(Prefix(word) + [c]), words)
  }

  function Prefix(word: Option<string>): string {
    match word case None => "" case Some(w) => w
  }

  function EndWord(word: Option<string>, words: seq<string>): seq<string> {
    match word case None => words case Some(w) => words + [w]
  }

  function Finish(word: Option<string>, words: seq<string>): seq<seq<string>> {
    var all := EndWord(word, words);
    if all == [] then [] else [all]
  }

  function EqualsAt(word: string): (i: nat)
    ensures i <= |word|
    ensures i < |word| ==> word[i] == '='
    ensures forall k :: 0 <= k < i ==> word[k] != '='
  {
    if word == "" || word[0] == '=' then 0 else 1 + EqualsAt(word[1..])
  }

  predicate NameChar(c: char) {
    'a' <= c <= 'z' || 'A' <= c <= 'Z' || '0' <= c <= '9' || c == '_'
  }

  predicate Identifier(key: string) {
    key != "" && !('0' <= key[0] <= '9') && forall i :: 0 <= i < |key| ==> NameChar(key[i])
  }

  /** Carries out a list of exports, each of one assignment to a name. */
  function Exports(commands: seq<seq<string>>, environment: map<string, string>): Option<map<string, string>> {
    if commands == [] then Some(environment)
    else
      var c := commands[0];
      if |c| != 2 || c[0] != "export" then None
      else
        var i := EqualsAt(c[1]);
        if i == |c[1]| || !Identifier(c[1][..i]) then None
        else Exports(commands[1..], environment[c[1][..i] := c[1][i + 1..]])
  }

  /** The variables a shell has after reading a file. */
  function Source(text: string): Option<map<string, string>> {
    match Commands(text, Unquoted, None, [])
    case None => None
    case Some(commands) => Exports(commands, map[])
  }

  // ----- Reading back what was written -----

  predicate Plain(text: string) {
    forall i :: 0 <= i < |text| ==> NameChar(text[i]) || text[i] == '='
  }

  /** Plain characters stand for themselves. */
  lemma {:induction false} ReadPlain(text: string, rest: string, word: Option<string>, words: seq<string>)
    requires Plain(text) && text != ""
    ensures Commands(text + rest, Unquoted, word, words) ==
            Commands(rest, Unquoted, Some(Prefix(word) + text), words)
  {
    var all, begun := text + rest, Prefix(word) + [text[0]];
    assert all[0] == text[0] && all[1..] == text[1..] + rest;
    if |text| == 1 {
      assert all[1..] == rest && begun == Prefix(word) + text;
    } else {
      ReadPlain(text[1..], rest, Some(begun), words);
      assert begun + text[1..] == Prefix(word) + text;
    }
  }

  /** An escaped value inside quotes, read to its closing quote, is the value. */
  lemma {:induction false} ReadEscaped(value: string, rest: string, word: string, words: seq<string>)
    requires NulFree(value)
    ensures Commands(EscapeQuotes(value) + "'" + rest, SingleQuoted, Some(word), words) ==
            Commands(rest, Unquoted, Some(word + value), words)
  {
    var all := EscapeQuotes(value) + "'" + rest;
    if value == "" {
      assert all[0] == '\'' && all[1..] == rest && word + value == word;
    } else {
      var tail := EscapeQuotes(value[1..]) + "'" + rest;
      ReadEscaped(value[1..], rest, word + [value[0]], words);
      assert word + [value[0]] + value[1..] == word + value;
      if value[0] == '\'' {
        assert all == "'\\''" + tail;
        assert all[1..] == "\\''" + tail;
        assert all[1..][1..] == "''" + tail;
        assert all[1..][1..][1..] == "'" + tail;
        assert all[1..][1..][1..][1..] == tail;
        calc {
          Commands(all, SingleQuoted, Some(word), words);
          Commands(all[1..], Unquoted, Some(word), words);
          Commands(all[1..][1..], Escaped, Some(word), words);
          Commands(all[1..][1..][1..], Unquoted, Some(word + [value[0]]), words);
          Commands(tail, SingleQuoted, Some(word + [value[0]]), words);
        }
      } else {
        assert all[0] == value[0] && all[1..] == tail;
      }
    }
  }

  /** One written line reads as one command, the export of the variable with its exact value. */
  lemma ReadExportLine(key: string, value: string, rest: string)
    requires Identifier(key) && NulFree(value)
    ensures Commands(ExportLine(key, value) + rest, Unquoted, None, []) ==
            match Commands(rest, Unquoted, None, [])
            case None => None
            case Some(more) => Some([ExportCommand(key, value)] + more)
  {
    var left, ending := key + "=", "\n" + rest;
    var quoted := EscapeQuotes(value) + "'" + ending;
    assert quoted == EscapeQuotes(value) + "'" + "\n" + rest;
    var second := left + ("'" + quoted);
    assert ExportLine(key, value) + rest == "export" + (" " + second);
    calc {
      Commands("export" + (" " + second), Unquoted, None, []);
      { ReadPlain("export", " " + second, None, []); assert "" + "export" == "export"; }
      Commands(" " + second, Unquoted, Some("export"), []);
      { assert (" " + second)[1..] == second; assert EndWord(Some("export"), []) == ["export"]; }
      Commands(second, Unquoted, None, ["export"]);
      { ReadPlain(left, "'" + quoted, None, ["export"]); assert "" + left == left; }
      Commands("'" + quoted, Unquoted, Some(left), ["export"]);
      { assert ("'" + quoted)[1..] == quoted; }
      Commands(quoted, SingleQuoted, Some(left), ["export"]);
      { ReadEscaped(value, ending, left, ["export"]); }
      Commands(ending, Unquoted, Some(left + value), ["export"]);
    }
    assert ending[0] == '\n' && ending[1..] == rest;
    assert EndWord(Some(left + value), ["export"]) == ExportCommand(key, value);
  }

  function ExportCommand(key: string, value: string): seq<string> {
    ["export", key + "=" + value]
  }

  function ExportCommands(keys: seq<string>, environment: map<string, string>): seq<seq<string>>
    requires forall key <- keys :: key in environment
  {
    if keys == [] then []
    else [ExportCommand(keys[0], environment[keys[0]])] + ExportCommands(keys[1..], environment)
  }

  /** Reading back rendered lines gives one export for each, in their order. */
  lemma {:induction false} ReadRendered(keys: seq<string>, environment: map<string, string>)
    requires forall key <- keys :: key in environment && Identifier(key) && NulFree(environment[key])
    ensures Commands(Render(keys, environment), Unquoted, None, []) == Some(ExportCommands(keys, environment))
  {
    if keys != [] {
      ReadExportLine(keys[0], environment[keys[0]], Render(keys[1..], environment));
      ReadRendered(keys[1..], environment);
    }
  }

  /** Carrying out the exports sets exactly the named variables. */
  lemma {:induction false} ExportAll(keys: seq<string>, environment: map<string, string>, before: map<string, string>)
    requires forall key <- keys :: key in environment && Identifier(key)
    ensures Exports(ExportCommands(keys, environment), before) ==
            Some(before + map key | key in keys :: environment[key])
  {
    var chosen := map key | key in keys :: environment[key];
    if keys == [] {
      assert chosen == map[];
      assert before + chosen == before;
    } else {
      var key, value := keys[0], environment[keys[0]];
      SplitAssignment(key, value);
      ExportAll(keys[1..], environment, before[key := value]);
      OneMoreKey(keys, environment, before);
    }
  }

  lemma OneMoreKey(keys: seq<string>, environment: map<string, string>, before: map<string, string>)
    requires keys != [] && forall key <- keys :: key in environment
    ensures before[keys[0] := environment[keys[0]]] + (map key | key in keys[1..] :: environment[key]) ==
            before + map key | key in keys :: environment[key]
  {
    assert keys == [keys[0]] + keys[1..];
  }

  lemma SplitAssignment(key: string, value: string)
    requires Identifier(key)
    ensures var word := key + "=" + value;
      EqualsAt(word) == |key| && word[..|key|] == key && word[|key| + 1..] == value
  {
    var word := key + "=" + value;
    assert forall k :: 0 <= k < |key| ==> word[k] == key[k] && NameChar(key[k]);
    assert word[|key|] == '=';
  }

  /** Sourcing the environment file gives exactly the variables it was written from, whatever quotes,
      backslashes and newlines their values hold. */
  lemma EnvironmentRoundTrip(environment: map<string, string>)
    requires forall key <- environment :: Identifier(key) && NulFree(environment[key])
    ensures Source(EnvironmentFile(environment)) == Some(environment)
  {
    var keys := Sorted(environment.Keys);
    ReadRendered(keys, environment);
    ExportAll(keys, environment, map[]);
    AllChosen(keys, environment);
  }

  /** The file has one line for each variable, in the order of their names. */
  lemma FileInOrder(environment: map<string, string>) returns (keys: seq<string>)
    ensures Ascending(keys) && forall key :: key in keys <==> key in environment
    ensures EnvironmentFile(environment) == Render(keys, environment)
  {
    keys := Sorted(environment.Keys);
  }

  /** The characters of names, by code point: small and capital letters, digits and the underscore. */
  lemma NameCharsAre(c: char)
    ensures NameChar(c) <==>
      (var n := c as int; 97 <= n <= 122 || 65 <= n <= 90 || 48 <= n <= 57 || n == 95)
  {
  }

  /** Which names a variable may have: nonempty, of such characters, and not beginning with a digit. */
  lemma IdentifiersAre(key: string)
    ensures Identifier(key) <==>
      (|key| >= 1 && !(48 <= key[0] as int <= 57) && forall i :: 0 <= i < |key| ==> NameChar(key[i]))
  {
  }

  lemma AllChosen(keys: seq<string>, environment: map<string, string>)
    requires forall key :: key in keys <==> key in environment
    ensures map[] + (map key | key in keys :: environment[key]) == environment
  {
  }
}
