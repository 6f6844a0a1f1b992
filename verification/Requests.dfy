/** The request line of an agent connection: one bounded line, decoded strictly, at the level of
    JSON values (sections 3 and 4 of RFC 8259). Turning text into values is a parameter. */
module Requests {
  import opened Common
  import opened Streams

  datatype Numeral = Whole(negative: bool, magnitude: nat) | Fractional

  datatype Json =
    | Null
    | Boolean(b: bool)
    | Number(n: Numeral)
    | Text(s: string)
    | Array(items: seq<Json>)
    | Object(fields: map<string, Json>)

  type Lexer = seq<Byte> -> Option<Json>

  datatype Request =
    | PortRequest(port: nat)
    | ShellRequest(term: string, cols: nat, rows: nat, command: seq<string>)

  datatype RequestError = Unreadable(failure: Failure) | InvalidRequest

  const PORT_FIELDS := ["target", "port"]
  const SHELL_FIELDS := ["target", "term", "cols", "rows", "command"]

  /** Decoding into an unsigned 16-bit integer: null leaves the zero already there, and a sign, a
      fraction or an exponent is refused even where the number would fit. */
  function ToUint16(j: Json): Option<nat> {
    match j
    case Null => Some(0)
    case Number(Whole(false, m)) => if m < 0x1_0000 then Some(m) else None
    case _ => None
  }

  /** Decoding into a string: null leaves the empty string already there. */
  function ToText(j: Json): Option<string> {
    match j
    case Null => Some("")
    case Text(s) => Some(s)
    case _ => None
  }

  function ToTexts(items: seq<Json>): (texts: Option<seq<string>>)
    ensures texts.Some? ==> |texts.value| == |items|
    ensures texts.Some? ==> forall i :: 0 <= i < |items| ==> ToText(items[i]) == Some(texts.value[i])
    ensures texts.None? ==> exists i :: 0 <= i < |items| && ToText(items[i]) == None
  {
    if items == [] then Some([])
    else
      match (ToText(items[0]), ToTexts(items[1..]))
      case (Some(first), Some(rest)) =>
        assert forall i :: 1 <= i < |items| ==> items[i] == items[1..][i - 1];
        Some([first] + rest)
      case (None, _) => assert ToText(items[0]) == None; None
      case (_, None) =>
        assert forall i :: 0 <= i < |items[1..]| ==> items[1..][i] == items[i + 1];
        None
  }

  /** Accepts exactly the listed fields, by counting them and looking each one up. */
  method HasExactFields(fields: map<string, Json>, names: seq<string>) returns (exact: bool)
    requires forall i, j :: 0 <= i < j < |names| ==> names[i] != names[j]
    ensures exact <==> fields.Keys == set name | name in names
  {
    NamesCount(names);
    if |fields| != |names| {
      return false;
    }
    for i := 0 to |names|
      invariant forall k :: 0 <= k < i ==> names[k] in fields
    {
      if names[i] !in fields {
        return false;
      }
    }
    SameSizeSubset((set name | name in names), fields.Keys);
    return true;
  }

  lemma {:induction false} NamesCount(names: seq<string>)
    requires forall i, j :: 0 <= i < j < |names| ==> names[i] != names[j]
    ensures |set name | name in names| == |names|
  {
    if names != [] {
      NamesCount(names[1..]);
      var rest := set name | name in names[1..];
      assert (set name | name in names) == rest + {names[0]};
      assert names[0] !in rest;
    }
  }

  lemma SameSizeSubset<T>(a: set<T>, b: set<T>)
    requires a <= b && |a| == |b|
    ensures a == b
  {
    assert b == a + (b - a);
  }

  method ParsePort(fields: map<string, Json>) returns (request: Option<Request>)
    requires "target" in fields && fields["target"] == Text("port")
    ensures Answers(Object(fields), request)
  {
    var exact := HasExactFields(fields, PORT_FIELDS);
    assert (set name | name in PORT_FIELDS) == {"target", "port"};
    if !exact {
      return None;
    }
    var port := ToUint16(fields["port"]);
    if port == None || port.value == 0 {
      return None;
    }
    return Some(PortRequest(port.value));
  }

  /** The command of a shell request; none is given as null. */
  method ParseCommand(value: Json) returns (command: Option<seq<string>>)
    ensures match command
      case Some(c) => DescribesCommand(value, c) && AllNulFree(c)
      case None => forall c :: !(DescribesCommand(value, c) && AllNulFree(c))
  {
    if value == Null {
      return Some([]);
    }
    var texts := if value.Array? then ToTexts(value.items) else None;
    if texts == None || texts.value == [] {
      return None;
    }
    for i := 0 to |texts.value|
      invariant forall k :: 0 <= k < i ==> NulFree(texts.value[k])
    {
      if '\0' in texts.value[i] {
        assert forall c :: DescribesCommand(value, c) ==> |c| == |texts.value| && c[i] == texts.value[i];
        return None;
      }
    }
    return texts;
  }

  method ParseShell(fields: map<string, Json>) returns (request: Option<Request>)
    requires "target" in fields && fields["target"] == Text("shell")
    ensures Answers(Object(fields), request)
  {
    var exact := HasExactFields(fields, SHELL_FIELDS);
    assert (set name | name in SHELL_FIELDS) == {"target", "term", "cols", "rows", "command"};
    if !exact {
      return None;
    }
    var term := ToText(fields["term"]);
    if term == None || term.value == "" || '\0' in term.value {
      return None;
    }
    var cols := ToUint16(fields["cols"]);
    if cols == None || cols.value == 0 {
      return None;
    }
    var rows := ToUint16(fields["rows"]);
    if rows == None || rows.value == 0 {
      return None;
    }
    var command := ParseCommand(fields["command"]);
    if command == None {
      return None;
    }
    return Some(ShellRequest(term.value, cols.value, rows.value, command.value));
  }

  /** Decodes one request value. */
  method ParseRequest(value: Option<Json>) returns (request: Option<Request>)
    ensures value == None ==> request == None
    ensures value.Some? ==> Answers(value.value, request)
  {
    if value == None || !value.value.Object? {
      return None;
    }
    var fields := value.value.fields;
    if "target" !in fields || fields["target"] !in {Text("port"), Text("shell")} {
      return None;
    }
    if fields["target"] == Text("port") {
      request := ParsePort(fields);
    } else {
      request := ParseShell(fields);
    }
  }

  // ----- What a request value means -----

  /** The requests an agent may be asked: a port, or a terminal with a nonempty name and two nonzero
      sides and perhaps a command, with no NUL anywhere. */
  predicate ValidRequest(r: Request) {
    match r
    case PortRequest(port) => 0 < port < 0x1_0000
    case ShellRequest(term, cols, rows, command) =>
      && term != "" && NulFree(term)
      && 0 < cols < 0x1_0000 && 0 < rows < 0x1_0000
      && AllNulFree(command)
  }

  predicate AllNulFree(command: seq<string>) {
    forall i :: 0 <= i < |command| ==> NulFree(command[i])
  }

  function Natural(n: nat): Json {
    Number(Whole(false, n))
  }

  /** An argument is written as a string; null stands for the empty one. */
  predicate Argument(j: Json, s: string) {
    j == Text(s) || (j == Null && s == "")
  }

  /** A value describes a request when it has the request's fields, each once and no other. */
  predicate Describes(j: Json, r: Request) {
    && ValidRequest(r)
    && j.Object?
    && match r
       case PortRequest(port) => j.fields == map["target" := Text("port"), "port" := Natural(port)]
       case ShellRequest(term, cols, rows, command) =>
         && j.fields.Keys == {"target", "term", "cols", "rows", "command"}
         && j.fields["target"] == Text("shell")
         && j.fields["term"] == Text(term)
         && j.fields["cols"] == Natural(cols)
         && j.fields["rows"] == Natural(rows)
         && DescribesCommand(j.fields["command"], command)
  }

  predicate DescribesCommand(j: Json, command: seq<string>) {
    if command == [] then j == Null
    else j.Array? && |j.items| == |command| && forall i :: 0 <= i < |command| ==> Argument(j.items[i], command[i])
  }

  ghost predicate Answers(j: Json, answer: Option<Request>) {
    match answer
    case Some(r) => Describes(j, r)
    case None => forall r :: !Describes(j, r)
  }

  function EncodeRequest(r: Request): Json {
    match r
    case PortRequest(port) => Object(map["target" := Text("port"), "port" := Natural(port)])
    case ShellRequest(term, cols, rows, command) =>
      Object(map["target" := Text("shell"), "term" := Text(term), "cols" := Natural(cols), "rows" := Natural(rows),
                 "command" := if command == [] then Null
                              else Array(seq(|command|, i requires 0 <= i < |command| => Text(command[i])))])
  }

  /** The answer to the encoding of a valid request is that request and no other. */
  lemma RequestRoundTrip(r: Request, answer: Option<Request>)
    requires ValidRequest(r) && Answers(EncodeRequest(r), answer)
    ensures answer == Some(r)
  {
    assert Describes(EncodeRequest(r), r);
    DescribedOnce(EncodeRequest(r), r, answer.value);
  }

  /** A value describes at most one request. */
  lemma DescribedOnce(j: Json, r: Request, r': Request)
    requires Describes(j, r) && Describes(j, r')
    ensures r == r'
  {
    if r.ShellRequest? {
      assert r'.ShellRequest? by {
        assert j.fields["target"] == Text("shell");
      }
      assert |r.command| == |r'.command|;
      assert forall i :: 0 <= i < |r.command| ==> r.command[i] == r'.command[i];
      assert r.command == r'.command;
    } else {
      assert j.fields["target"] == Text("port");
      assert j.fields["port"] == Natural(r.port);
    }
  }

  /** Nulls inside a command are the only freedom: written out as empty strings, an accepted value is
      the encoding of its request. */
  function Canonical(j: Json): Json {
    if j.Object? && "command" in j.fields && j.fields["command"].Array? then
      var items := j.fields["command"].items;
      Object(j.fields["command" := Array(seq(|items|, i requires 0 <= i < |items| =>
        if items[i] == Null then Text("") else items[i]))])
    else j
  }

  lemma AcceptedIsCanonical(j: Json, r: Request)
    requires Describes(j, r)
    ensures Canonical(j) == EncodeRequest(r)
  {
    if r.ShellRequest? {
      var c := j.fields["command"];
      if r.command != [] {
        assert Canonical(j).fields["command"].items == EncodeRequest(r).fields["command"].items;
      }
      assert Canonical(j).fields == EncodeRequest(r).fields;
    }
  }

  /** Reads the request line off a connection. Exactly the first line is consumed, whether it is a
      request or not; a line longer than the bound, or none, is no request. */
  method ReadRequest(reader: BufferedReader, lex: Lexer) returns (result: Result<Request, RequestError>)
    requires reader.Valid()
    modifies reader, reader.buffer, reader.source`pending
    ensures reader.Valid()
    ensures match FirstLine(old(reader.Pending()))
      case None =>
        result.Err? && result.error.Unreadable? &&
        NoLineReason(old(reader.Pending()), reader.source.ending, result.error.failure)
      case Some(line) =>
        && reader.Pending() == old(reader.Pending())[|line|..]
        && (result.Err? ==> result.error == InvalidRequest)
        && LineAnswers(lex, line, if result.Ok? then Some(result.value) else None)
  {
    var line := reader.ReadSlice();
    if line.NoLine? {
      return Err(Unreadable(line.failure));
    }
    var request := ParseRequest(lex(line.text[..|line.text| - 1]));
    return if request.Some? then Ok(request.value) else Err(InvalidRequest);
  }

  ghost predicate LineAnswers(lex: Lexer, line: seq<Byte>, answer: Option<Request>)
    requires line != []
  {
    match lex(line[..|line| - 1])
    case Some(j) => Answers(j, answer)
    case None => answer == None
  }
}
