/** The message shown for an error: what is rendered from the vocabulary, and when rendering panics. */
module Messages {
  import opened Common
  import opened Strings
  import opened Texts
  import opened Placeholders
  import opened Vocabulary
  import opened StartUp

  /** What rendering draws on. How Go quotes a string is left open. */
  datatype Words = Words(entries: Entries, labels: map<string, string>, quote: string -> string)

  datatype ApiError = ApiError(tag: string, fields: map<string, seq<string>>, currentRevision: int,
                               cause: Option<string>)

  datatype Rendered = Text(text: string) | Panic

  predicate IsKind(entries: Entries, name: string, kind: Kind) {
    name in entries && entries[name].kind == kind
  }

  // ----- Commands -----

  function CommandSentence(w: Words, tag: string): Rendered {
    if !IsKind(w.entries, tag, Command) || w.entries[tag].sentence == "" then Panic
    else Text(w.entries[tag].sentence)
  }

  function SentenceWithRemedy(w: Words, reason: string, sentence: string): string {
    if reason !in REMEDIES then sentence
    else if IsKind(w.entries, reason, Field) then TrimPeriod(sentence) + "; " + REMEDIES[reason]
    else sentence + " " + REMEDIES[reason]
  }

  function TrimPeriod(s: string): string {
    if s != "" && s[|s| - 1] == '.' then s[..|s| - 1] else s
  }

  /** At most one placeholder is ever replaced. */
  function Replaced(sentence: string, replacement: Option<(string, string)>): string {
    match replacement
    case None => sentence
    case Some((name, value)) => ReplaceAll(sentence, Braced(name), value)
  }

  function RenderCommandSentence(w: Words, tag: string, replacement: Option<(string, string)>): Rendered {
    match CommandSentence(w, tag)
    case Panic => Panic
    case Text(template) =>
      var sentence := Replaced(template, replacement);
      if Scan(sentence) != [] then Panic else Text(SentenceWithRemedy(w, tag, sentence))
  }

  // ----- Fields -----

  function FieldLabel(w: Words, field: string): string {
    if field in w.labels then w.labels[field] else field
  }

  function ReasonText(w: Words, reason: string): string {
    if IsKind(w.entries, reason, Field) then w.entries[reason].sentence
    else "has an unknown validation reason " + w.quote(reason) + "; update biot and try again."
  }

  function FieldReasonMessage(w: Words, field: string, reason: string): string {
    FieldLabel(w, field) + " " + SentenceWithRemedy(w, reason, ReasonText(w, reason))
  }

  function FieldMessages(w: Words, field: string, reasons: seq<string>): seq<string> {
    seq(|reasons|, i requires 0 <= i < |reasons| => FieldReasonMessage(w, field, reasons[i]))
  }

  /** An order of the rejected fields: each of them once, by their labels. Fields with the same label
      may stand in any order. */
  ghost predicate IsOrder(w: Words, fields: map<string, seq<string>>, order: seq<string>) {
    && (forall key :: key in order <==> key in fields)
    && (forall key :: multiset(order)[key] <= 1)
    && forall i, j :: 0 <= i < j < |order| ==> !Less(FieldLabel(w, order[j]), FieldLabel(w, order[i]))
  }

  /** What is said about each field with a reason. */
  function Parts(w: Words, fields: map<string, seq<string>>, order: seq<string>): seq<string>
    requires forall key <- order :: key in fields
  {
    if order == [] then []
    else
      var last := order[|order| - 1];
      Parts(w, fields, order[..|order| - 1]) +
      if fields[last] == [] then [] else [Join(FieldMessages(w, last, fields[last]), ", ")]
  }

  function InvalidInput(w: Words, fields: map<string, seq<string>>, order: seq<string>): Rendered
    requires forall key <- order :: key in fields
  {
    var parts := Parts(w, fields, order);
    if parts == [] then CommandSentence(w, "invalid_input") else Text(Join(parts, "; "))
  }

  predicate NoReasons(fields: map<string, seq<string>>) {
    forall key <- fields :: fields[key] == []
  }

  /** Keys in the order of their labels. */
  method SortByLabel(w: Words, fields: map<string, seq<string>>) returns (order: seq<string>)
    ensures IsOrder(w, fields, order)
  {
    order := [];
    var left := fields.Keys;
    while left != {}
      invariant left <= fields.Keys
      invariant forall key :: key in order <==> key in fields.Keys - left
      invariant forall key :: multiset(order)[key] <= 1
      invariant forall i, j :: 0 <= i < j < |order| ==> !Less(FieldLabel(w, order[j]), FieldLabel(w, order[i]))
      invariant forall i, key :: 0 <= i < |order| && key in left ==>
                  !Less(FieldLabel(w, key), FieldLabel(w, order[i]))
    {
      FirstByLabelExists(w, left);
      var first :| first in left && forall key <- left :: !Less(FieldLabel(w, key), FieldLabel(w, first));
      assert first !in order && first !in multiset(order);
      left := left - {first};
      order := order + [first];
    }
  }

  lemma FirstByLabelExists(w: Words, keys: set<string>)
    requires keys != {}
    ensures exists first <- keys :: forall key <- keys :: !Less(FieldLabel(w, key), FieldLabel(w, first))
  {
    var labels := set key <- keys :: FieldLabel(w, key);
    var some :| some in keys;
    assert FieldLabel(w, some) in labels;
    var least := LeastExists(labels);
    var first :| first in keys && FieldLabel(w, first) == least;
    forall key <- keys
      ensures !Less(FieldLabel(w, key), FieldLabel(w, first))
    {
      assert FieldLabel(w, key) in labels;
      LessIsStrict(FieldLabel(w, key), least);
    }
  }

  method FieldParts(w: Words, field: string, reasons: seq<string>) returns (parts: seq<string>)
    ensures parts == FieldMessages(w, field, reasons)
  {
    parts := [];
    for k := 0 to |reasons|
      invariant parts == FieldMessages(w, field, reasons[..k])
    {
      parts := parts + [FieldReasonMessage(w, field, reasons[k])];
    }
    assert reasons[..|reasons|] == reasons;
  }

  lemma PartsOfMore(w: Words, fields: map<string, seq<string>>, order: seq<string>, i: nat)
    requires i < |order| && forall key <- order :: key in fields
    ensures var messages := FieldMessages(w, order[i], fields[order[i]]);
            Parts(w, fields, order[..i + 1]) ==
            if messages == [] then Parts(w, fields, order[..i]) else Parts(w, fields, order[..i]) + [Join(messages, ", ")]
  {
    assert order[..i + 1][..i] == order[..i];
  }

  method InvalidInputMessage(w: Words, fields: map<string, seq<string>>)
    returns (message: Rendered, ghost order: seq<string>)
    ensures IsOrder(w, fields, order) && message == InvalidInput(w, fields, order)
    ensures message == Panic <==> NoReasons(fields) && CommandSentence(w, "invalid_input") == Panic
  {
    if fields == map[] {
      return CommandSentence(w, "invalid_input"), [];
    }
    var keys := SortByLabel(w, fields);
    var parts: seq<string> := [];
    for i := 0 to |keys|
      invariant parts == Parts(w, fields, keys[..i])
    {
      var fieldParts := FieldParts(w, keys[i], fields[keys[i]]);
      PartsOfMore(w, fields, keys, i);
      if fieldParts != [] {
        parts := parts + [Join(fieldParts, ", ")];
      }
    }
    assert keys[..|keys|] == keys;
    NoPartsNoReasons(w, fields, keys);
    if parts == [] {
      return CommandSentence(w, "invalid_input"), keys;
    }
    return Text(Join(parts, "; ")), keys;
  }

  // ----- Errors -----

  function Message(w: Words, e: ApiError, order: seq<string>): Rendered
    requires forall key <- order :: key in e.fields
  {
    if e.cause.Some? then Text(e.cause.value)
    else if e.tag == "revision_conflict" then
      RenderCommandSentence(w, e.tag, Some(("revision", Itoa(e.currentRevision))))
    else if e.tag == "invalid_input" then InvalidInput(w, e.fields, order)
    else if e.tag == "internal" then Text("The server could not complete that request.")
    else if IsKind(w.entries, e.tag, Command) then RenderCommandSentence(w, e.tag, None)
    else if e.tag != "" then
      Text("The server returned an error this client does not understand (code " + w.quote(e.tag) +
           "). Update biot and try again.")
    else Text("The server returned an unexpected response.")
  }

  method ErrorMessage(w: Words, e: ApiError) returns (message: Rendered, ghost order: seq<string>)
    ensures IsOrder(w, e.fields, order) && message == Message(w, e, order)
    ensures Complete(w.entries) ==>
      (message == Panic <==>
        && e.cause == None && e.tag == "invalid_input" && NoReasons(e.fields)
        && !IsKind(w.entries, "invalid_input", Command))
  {
    if e.cause.None? && e.tag == "invalid_input" {
      message, order := InvalidInputMessage(w, e.fields);
    } else {
      order := SortByLabel(w, e.fields);
      message := Message(w, e, []);
    }
    if Complete(w.entries) {
      PanicsExactly(w, e, order);
    }
  }

  // ----- When rendering panics -----

  lemma {:induction false} NoPartsNoReasons(w: Words, fields: map<string, seq<string>>, order: seq<string>)
    requires forall key <- order :: key in fields
    ensures Parts(w, fields, order) == [] <==> forall key <- order :: fields[key] == []
  {
    if order != [] {
      var last := |order| - 1;
      NoPartsNoReasons(w, fields, order[..last]);
      assert order == order[..last] + [order[last]];
    }
  }

  lemma NoBraceNoPlaceholder(s: string)
    requires NoBrace(s)
    ensures Scan(s) == []
  {
    ShapedIsCounted(s, [s], []);
  }

  lemma {:induction false} ReplaceSkips(head: string, rest: string, name: string, value: string)
    requires NoBrace(head)
    ensures ReplaceAll(head + rest, Braced(name), value) == head + ReplaceAll(rest, Braced(name), value)
  {
    var s := head + rest;
    if head == "" {
      assert s == rest;
    } else {
      ReplaceSkips(head[1..], rest, name, value);
      assert s[1..] == head[1..] + rest;
      assert s[0] == head[0] && head[0] in head;
      if |s| >= |Braced(name)| {
        assert s[..|Braced(name)|][0] == s[0];
        assert Braced(name)[0] == '{';
      }
    }
  }

  /** A sentence with one placeholder is cut by it. */
  lemma OnePlaceholder(s: string, name: string) returns (head: string, rest: string)
    requires HasPlaceholders(s, [name])
    ensures s == head + Braced(name) + rest && NoBrace(head) && NoBrace(rest)
  {
    var pieces :| Shaped(s, pieces, [name]);
    head, rest := pieces[0], pieces[1];
    assert NoBrace(pieces[0]) && NoBrace(pieces[1]);
    assert [name][1..] == [] && pieces[1..] == [rest];
    assert Interleave([rest], []) == rest;
    Associative(head, Braced(name), rest);
  }

  /** The one placeholder of a sentence is replaced, and nothing else changes. */
  lemma ReplaceHere(head: string, name: string, value: string, rest: string)
    requires NoBrace(head) && NoBrace(rest)
    ensures ReplaceAll(head + Braced(name) + rest, Braced(name), value) == head + value + rest
  {
    var tail := Braced(name) + rest;
    Associative(head, Braced(name), rest);
    Associative(head, value, rest);
    ReplaceSkips(head, tail, name, value);
    assert tail[..|Braced(name)|] == Braced(name) && tail[|Braced(name)|..] == rest;
    ReplaceSkips(rest, "", name, value);
    assert rest + "" == rest;
  }

  /** The start-up checks make a revision conflict a command with one placeholder for the revision,
      and the message is its sentence with the revision in that place, and the remedy. */
  lemma RevisionConflictShown(w: Words, e: ApiError) returns (head: string, rest: string)
    requires Complete(w.entries) && e.cause == None && e.tag == "revision_conflict"
    ensures IsKind(w.entries, e.tag, Command)
    ensures w.entries[e.tag].sentence == head + Braced("revision") + rest && NoBrace(head) && NoBrace(rest)
    ensures Message(w, e, []) == Text(head + Itoa(e.currentRevision) + rest + " " + "Run the command again.")
    ensures Message(w, e, []) == Text(SentenceWithRemedy(w, e.tag, head + Itoa(e.currentRevision) + rest))
  {
    RevisionConflictIsCommand(w.entries);
    var number := Itoa(e.currentRevision);
    head, rest := OnePlaceholder(w.entries[e.tag].sentence, "revision");
    RevisionReplaced(head, e.currentRevision, rest);
    ReplacedShown(w, e.tag, head, "revision", number, rest);
  }

  lemma ReplacedShown(w: Words, tag: string, head: string, name: string, value: string, rest: string)
    requires IsKind(w.entries, tag, Command) && w.entries[tag].sentence == head + Braced(name) + rest
    requires NoBrace(head) && NoBrace(rest) && Scan(head + value + rest) == []
    ensures RenderCommandSentence(w, tag, Some((name, value))) == Text(SentenceWithRemedy(w, tag, head + value + rest))
  {
    ReplaceHere(head, name, value, rest);
    assert (head + Braced(name) + rest)[|head|] == '{';
  }

  lemma RevisionConflictIsCommand(entries: Entries)
    requires Complete(entries)
    ensures IsKind(entries, "revision_conflict", Command)
    ensures HasPlaceholders(entries["revision_conflict"].sentence, ["revision"])
  {
    var reason := "revision_conflict";
    assert reason in REMEDIES;
    assert Fit(reason, entries[reason]);
    assert REMEDIES[reason][0] == 'R';
  }

  lemma RevisionReplaced(head: string, revision: int, rest: string)
    requires NoBrace(head) && NoBrace(rest)
    ensures NoBrace(head + Itoa(revision) + rest)
    ensures Scan(head + Itoa(revision) + rest) == []
  {
    NoBraceNoPlaceholder(head + Itoa(revision) + rest);
  }

  lemma CommandShown(w: Words, tag: string)
    requires Complete(w.entries) && tag != "revision_conflict" && IsKind(w.entries, tag, Command)
    ensures NoBrace(w.entries[tag].sentence)
    ensures CommandSentence(w, tag) == Text(w.entries[tag].sentence)
    ensures RenderCommandSentence(w, tag, None) == Text(SentenceWithRemedy(w, tag, w.entries[tag].sentence))
  {
    var sentence := w.entries[tag].sentence;
    assert Fit(tag, w.entries[tag]);
    var pieces :| Shaped(sentence, pieces, []);
    assert NoBrace(pieces[0]);
    NoBraceNoPlaceholder(sentence);
  }

  /** With a vocabulary that passed the start-up checks, rendering panics in exactly one case: the
      server rejected the input without a reason, and there is no command entry to say so with. */
  lemma PanicsExactly(w: Words, e: ApiError, order: seq<string>)
    requires Complete(w.entries) && IsOrder(w, e.fields, order)
    ensures Message(w, e, order) == Panic <==>
            && e.cause == None && e.tag == "invalid_input" && NoReasons(e.fields)
            && !IsKind(w.entries, "invalid_input", Command)
  {
    if e.cause == None {
      if e.tag == "revision_conflict" {
        var head, rest := RevisionConflictShown(w, e);
      } else if e.tag == "invalid_input" {
        NoPartsNoReasons(w, e.fields, order);
        if IsKind(w.entries, e.tag, Command) { CommandShown(w, e.tag); }
      } else if IsKind(w.entries, e.tag, Command) {
        CommandShown(w, e.tag);
      }
    }
  }

  /** Rendering is total exactly for those vocabularies that have a command entry for invalid input. */
  lemma NeverPanics(w: Words)
    requires Complete(w.entries)
    ensures (forall e: ApiError, order: seq<string> :: IsOrder(w, e.fields, order) ==> Message(w, e, order) != Panic)
            <==> IsKind(w.entries, "invalid_input", Command)
  {
    forall e: ApiError, order: seq<string> | IsOrder(w, e.fields, order)
      ensures IsKind(w.entries, "invalid_input", Command) ==> Message(w, e, order) != Panic
    {
      PanicsExactly(w, e, order);
    }
    var bare := ApiError("invalid_input", map[], 0, None);
    assert IsOrder(w, bare.fields, []);
    PanicsExactly(w, bare, []);
  }

  /** The start-up checks alone do not ensure it: here is a vocabulary text that is read and passes
      them, and an error whose rendering panics. */
  lemma StartUpChecksDoNotSuffice(quote: string -> string)
      returns (contents: string, entries: Entries, e: ApiError)
    ensures IsTextOf(contents, entries) && Complete(entries)
    ensures Message(Words(entries, map[], quote), e, []) == Panic
  {
    var field := PlainExample();
    var conflict := ConflictExample();
    var login := LoginExample();
    LessByFirst(field.name, conflict.name);
    LessByFirst(conflict.name, login.name);
    ThreeRows(field, conflict, login);
    contents, entries := Contents([field, conflict, login]), EntriesOf([field, conflict, login]);
    ThreeComplete(entries, field, conflict, login);
    e := ApiError("invalid_input", map[], 0, None);
    assert "invalid_input" !in entries;
  }

  function RequiredRow(name: string, kind: Kind, sentence: string): Row {
    Row(name, if kind == Field then "field" else "command", "0", sentence, "required")
  }

  predicate IsColumn(text: string) {
    text != "" && '|' !in text && '\n' !in text
  }

  lemma RequiredRowIsGood(name: string, kind: Kind, sentence: string)
    requires IsColumn(name) && IsColumn(sentence)
    ensures var row := RequiredRow(name, kind, sentence);
            GoodRow(row) && EntryOf(row) == Entry(kind, 0, sentence, true)
  {
    assert Itoa(0) == "0";
    AtoiItoa(0);
  }

  lemma ThreeRows(a: Row, b: Row, c: Row)
    requires GoodRow(a) && GoodRow(b) && GoodRow(c)
    requires Less(a.name, b.name) && Less(b.name, c.name)
    ensures IsVocabulary([a, b, c])
    ensures EntriesOf([a, b, c]) == map[a.name := EntryOf(a), b.name := EntryOf(b), c.name := EntryOf(c)]
  {
    LessIsTransitive(a.name, b.name, c.name);
    LessIsStrict(a.name, b.name);
    LessIsStrict(b.name, c.name);
    EntriesOfMore([], a);
    EntriesOfMore([a], b);
    EntriesOfMore([a, b], c);
    assert [] + [a] == [a] && [a] + [b] == [a, b] && [a, b] + [c] == [a, b, c];
  }

  lemma ThreeComplete(entries: Entries, a: Row, b: Row, c: Row)
    requires GoodRow(a) && GoodRow(b) && GoodRow(c)
    requires entries == map[a.name := EntryOf(a), b.name := EntryOf(b), c.name := EntryOf(c)]
    requires Fit(a.name, EntryOf(a)) && Fit(b.name, EntryOf(b)) && Fit(c.name, EntryOf(c))
    requires a.name != b.name && b.name != c.name && a.name != c.name
    requires REMEDIES.Keys <= {a.name, b.name, c.name}
    ensures Complete(entries)
  {
  }

  lemma LessByFirst(a: string, b: string)
    requires a != "" && b != "" && a[0] < b[0]
    ensures Less(a, b)
  {
  }

  lemma NotBlank(s: string)
    requires s != "" && !IsSpace(s[0])
    ensures !Blank(s)
  {
    assert s[0] in s;
  }

  lemma PlainFits(reason: string, kind: Kind, sentence: string)
    requires reason in REMEDIES && reason != "revision_conflict" && Fitting(REMEDIES[reason], kind)
    requires NoBrace(sentence) && !Blank(sentence)
    ensures Fit(reason, Entry(kind, 0, sentence, true))
  {
    assert Shaped(sentence, [sentence], []);
  }

  lemma ConflictFits(reason: string)
    requires reason in REMEDIES && reason == "revision_conflict" && Fitting(REMEDIES[reason], Command)
    ensures Fit(reason, Entry(Command, 0, Braced("revision"), true))
  {
    NotBlank(Braced("revision"));
    BareShape("revision");
  }

  lemma RemedyFits(reason: string, kind: Kind)
    requires reason in REMEDIES
    requires kind == if reason == "publication_not_active" then Field else Command
    ensures Fitting(REMEDIES[reason], kind)
  {
    NotBlank(REMEDIES[reason]);
  }

  lemma NamedExample(name: string, kind: Kind) returns (row: Row)
    requires name in REMEDIES && name != "revision_conflict" && IsColumn(name)
    requires kind == if name == "publication_not_active" then Field else Command
    ensures row.name == name && GoodRow(row) && Fit(name, EntryOf(row))
  {
    row := RequiredRow(name, kind, "x");
    RequiredRowIsGood(name, kind, "x");
    NotBlank("x");
    RemedyFits(name, kind);
    PlainFits(name, kind, "x");
  }

  lemma NamesOfRemedies()
    ensures "publication_not_active" in REMEDIES && "unauthenticated" in REMEDIES && "revision_conflict" in REMEDIES
  {
  }

  lemma PlainName()
    ensures IsColumn("publication_not_active")
  {
  }

  lemma PlainExample() returns (row: Row)
    ensures row.name == "publication_not_active" && row.name[0] == 'p'
    ensures GoodRow(row) && Fit(row.name, EntryOf(row))
  {
    NamesOfRemedies();
    PlainName();
    row := NamedExample("publication_not_active", Field);
  }

  lemma LoginExample() returns (row: Row)
    ensures row.name == "unauthenticated" && row.name[0] == 'u'
    ensures GoodRow(row) && Fit(row.name, EntryOf(row))
  {
    NamesOfRemedies();
    row := NamedExample("unauthenticated", Command);
  }

  lemma ConflictExample() returns (row: Row)
    ensures row.name == "revision_conflict" && row.name[0] == 'r'
    ensures GoodRow(row) && Fit(row.name, EntryOf(row))
  {
    row := RequiredRow("revision_conflict", Command, Braced("revision"));
    RequiredRowIsGood(row.name, Command, Braced("revision"));
    RemedyFits(row.name, Command);
    ConflictFits(row.name);
  }

  lemma BareShape(name: string)
    requires IsName(name)
    ensures Shaped(Braced(name), ["", ""], [name])
  {
    assert ["", ""][1..] == [""] && [name][1..] == [];
    assert Interleave([""], []) == "";
    assert "" + Braced(name) + "" == Braced(name);
  }

  lemma RemedyHasNoBrace(w: Words, tag: string, sentence: string)
    requires IsKind(w.entries, tag, Command) && NoBrace(sentence)
    ensures NoBrace(SentenceWithRemedy(w, tag, sentence))
  {
    if tag in REMEDIES {
      assert NoBrace(REMEDIES[tag]);
      assert NoBrace(sentence + " ");
    }
  }

  /** No sentence of a command is shown with a placeholder, or any brace, in it. */
  lemma NoPlaceholderKept(w: Words, e: ApiError, order: seq<string>)
    requires Complete(w.entries) && IsOrder(w, e.fields, order) && e.cause == None
    requires e.tag != "internal" && IsKind(w.entries, e.tag, Command)
    requires e.tag == "invalid_input" ==> NoReasons(e.fields)
    ensures Message(w, e, order).Text? && NoBrace(Message(w, e, order).text)
  {
    if e.tag == "revision_conflict" {
      var head, rest := RevisionConflictShown(w, e);
      RevisionReplaced(head, e.currentRevision, rest);
      RemedyHasNoBrace(w, e.tag, head + Itoa(e.currentRevision) + rest);
    } else {
      CommandShown(w, e.tag);
      if e.tag == "invalid_input" { NoPartsNoReasons(w, e.fields, order); }
      RemedyHasNoBrace(w, e.tag, w.entries[e.tag].sentence);
    }
  }

  // ----- What the message of rejected input says -----

  ghost predicate Mentions(text: string, part: string) {
    exists head, rest :: text == head + part + rest
  }

  lemma MentionsOn(text: string, middle: string, part: string)
    requires Mentions(text, middle) && Mentions(middle, part)
    ensures Mentions(text, part)
  {
    var outer, tail :| text == outer + middle + tail;
    var head, rest :| middle == head + part + rest;
    assert text == (outer + head) + part + (rest + tail);
  }

  lemma {:induction false} JoinMentions(parts: seq<string>, separator: string, part: string)
    requires part in parts
    ensures Mentions(Join(parts, separator), part)
  {
    var all := Join(parts, separator);
    if |parts| == 1 {
      assert all == "" + part + "";
    } else if part == parts[0] {
      assert all == "" + part + (separator + Join(parts[1..], separator));
    } else {
      JoinMentions(parts[1..], separator, part);
      var head, rest :| Join(parts[1..], separator) == head + part + rest;
      assert all == (parts[0] + separator + head) + part + rest;
    }
  }

  lemma {:induction false} FieldHasPart(w: Words, fields: map<string, seq<string>>, order: seq<string>, key: string)
    requires (forall k <- order :: k in fields) && key in order && fields[key] != []
    ensures Join(FieldMessages(w, key, fields[key]), ", ") in Parts(w, fields, order)
  {
    var last := |order| - 1;
    if order[last] != key {
      assert order == order[..last] + [order[last]];
      FieldHasPart(w, fields, order[..last], key);
    }
  }

  /** Every reason the server gave for a field is in the message, with the label of the field. */
  lemma EveryReasonMentioned(w: Words, e: ApiError, order: seq<string>, key: string, reason: string)
    requires IsOrder(w, e.fields, order) && e.cause == None && e.tag == "invalid_input"
    requires key in e.fields && reason in e.fields[key]
    ensures Message(w, e, order).Text?
    ensures Mentions(Message(w, e, order).text, FieldReasonMessage(w, key, reason))
  {
    var messages := FieldMessages(w, key, e.fields[key]);
    var i :| 0 <= i < |e.fields[key]| && e.fields[key][i] == reason;
    assert messages[i] == FieldReasonMessage(w, key, reason);
    FieldHasPart(w, e.fields, order, key);
    JoinMentions(messages, ", ", messages[i]);
    JoinMentions(Parts(w, e.fields, order), "; ", Join(messages, ", "));
    MentionsOn(Message(w, e, order).text, Join(messages, ", "), messages[i]);
  }

  // ----- What each error is rendered as -----

  /** A command tag other than the three with a rendering of their own: its sentence, and the remedy if
      there is one. */
  lemma CommandMessage(w: Words, e: ApiError, order: seq<string>)
    requires Complete(w.entries) && e.cause == None && (forall key <- order :: key in e.fields)
    requires e.tag !in {"revision_conflict", "invalid_input", "internal"}
    requires e.tag in w.entries && w.entries[e.tag].kind == Command
    ensures Message(w, e, order) ==
            Text(w.entries[e.tag].sentence + if e.tag in REMEDIES then " " + REMEDIES[e.tag] else "")
  {
    CommandShown(w, e.tag);
    var sentence := w.entries[e.tag].sentence;
    assert sentence + "" == sentence;
    if e.tag in REMEDIES {
      Associative(sentence, " ", REMEDIES[e.tag]);
    }
  }

  /** Whoever is not logged in is told to. */
  lemma UnauthenticatedMessage(w: Words, e: ApiError)
    requires Complete(w.entries) && e.cause == None && e.tag == "unauthenticated"
    ensures e.tag in w.entries
    ensures Message(w, e, []) == Text(w.entries[e.tag].sentence + " " + "Run biot login.")
  {
    KindsForced(w.entries);
    RemediesAre();
    CommandMessage(w, e, []);
    Associative(w.entries[e.tag].sentence, " ", REMEDIES[e.tag]);
  }

  /** Rejected input for which no reason is given: the bare sentence. */
  lemma BareRejection(w: Words, e: ApiError, order: seq<string>)
    requires Complete(w.entries) && IsOrder(w, e.fields, order)
    requires e.cause == None && e.tag == "invalid_input" && forall key <- e.fields :: e.fields[key] == []
    requires "invalid_input" in w.entries && w.entries["invalid_input"].kind == Command
    ensures Message(w, e, order) == Text(w.entries["invalid_input"].sentence)
  {
    NoPartsNoReasons(w, e.fields, order);
    CommandShown(w, "invalid_input");
  }

  /** Everything else: a cause speaks for itself, and what the client does not know is said with its
      code, if it has one. */
  lemma OtherMessages(w: Words, e: ApiError)
    ensures e.cause.Some? ==> Message(w, e, []) == Text(e.cause.value)
    ensures e.cause.None? && e.tag == "internal" ==>
      Message(w, e, []) == Text("The server could not complete that request.")
    ensures e.cause.None? && e.tag == "" && "" !in w.entries ==>
      Message(w, e, []) == Text("The server returned an unexpected response.")
    ensures (&& e.cause.None? && e.tag !in {"revision_conflict", "invalid_input", "internal", ""}
             && (e.tag !in w.entries || w.entries[e.tag].kind == Field)) ==>
        Message(w, e, []) == Text("The server returned an error this client does not understand (code " +
                                  w.quote(e.tag) + "). Update biot and try again.")
  {
  }

  /** What a reason says: a field's sentence without the period when a remedy goes on from it. */
  ghost predicate Says(w: Words, reason: string, text: string) {
    if reason in w.entries && w.entries[reason].kind == Field then
      if reason in REMEDIES then
        exists body :: text == body + "; " + REMEDIES[reason] && Unfinished(body, w.entries[reason].sentence)
      else text == w.entries[reason].sentence
    else
      text == "has an unknown validation reason " + w.quote(reason) + "; update biot and try again." +
              if reason in REMEDIES then " " + REMEDIES[reason] else ""
  }

  /** The body of a sentence is what is left of it without a period at its end. */
  ghost predicate Unfinished(body: string, sentence: string) {
    sentence == body + "." || (sentence == body && forall rest :: body != rest + ".")
  }

  lemma FieldReasonSays(w: Words, field: string, reason: string) returns (name: string, text: string)
    ensures name == if field in w.labels then w.labels[field] else field
    ensures FieldReasonMessage(w, field, reason) == name + " " + text && Says(w, reason, text)
  {
    name := FieldLabel(w, field);
    text := SentenceWithRemedy(w, reason, ReasonText(w, reason));
    if IsKind(w.entries, reason, Field) && reason in REMEDIES {
      var sentence := w.entries[reason].sentence;
      PeriodTrimmed(sentence);
      assert text == TrimPeriod(sentence) + "; " + REMEDIES[reason];
    } else if reason in REMEDIES {
      Associative(ReasonText(w, reason), " ", REMEDIES[reason]);
    } else {
      assert text + "" == text;
    }
  }

  lemma PeriodTrimmed(sentence: string)
    ensures Unfinished(TrimPeriod(sentence), sentence)
  {
    var n := |sentence| - 1;
    if sentence != "" && sentence[n] == '.' {
      assert sentence == sentence[..n] + ".";
    } else {
      forall rest
        ensures sentence != rest + "."
      {
        assert (rest + ".")[|rest|] == '.';
      }
    }
  }

  /** Every reason the server gave for a field is in the message, behind the label of the field. */
  lemma EveryReasonSaid(w: Words, e: ApiError, order: seq<string>, key: string, reason: string)
      returns (name: string, text: string)
    requires IsOrder(w, e.fields, order) && e.cause == None && e.tag == "invalid_input"
    requires key in e.fields && reason in e.fields[key]
    ensures name == if key in w.labels then w.labels[key] else key
    ensures Message(w, e, order).Text? && Says(w, reason, text)
    ensures Mentions(Message(w, e, order).text, name + " " + text)
  {
    name, text := FieldReasonSays(w, key, reason);
    EveryReasonMentioned(w, e, order, key, reason);
  }

  /** A remedy goes on from a field's sentence in place of its period. */
  lemma FieldRemedySaid(w: Words, field: string, reason: string, body: string)
    requires IsKind(w.entries, reason, Field) && reason in REMEDIES && w.entries[reason].sentence == body + "."
    ensures FieldReasonMessage(w, field, reason) ==
            (if field in w.labels then w.labels[field] else field) + " " + body + "; " + REMEDIES[reason]
  {
    assert TrimPeriod(body + ".") == body;
    var name := FieldLabel(w, field);
    Associative(name + " ", body, "; ");
    Associative(name + " ", body + "; ", REMEDIES[reason]);
  }
}
