/** The error vocabulary the client embeds: its text form, and reading it. */
module Vocabulary {
  import opened Common
  import opened Strings
  import opened Texts

  datatype Kind = Field | Command

  datatype Entry = Entry(kind: Kind, limit: nat, sentence: string, remedy: bool)

  type Entries = map<string, Entry>

  // ----- The text form -----

  /** One line of the vocabulary. */
  datatype Row = Row(name: string, kind: string, limit: string, sentence: string, remedy: string)

  function Columns(row: Row): seq<string> {
    [row.name, row.kind, row.limit, row.sentence, row.remedy]
  }

  function Line(row: Row): string {
    Join(Columns(row), "|")
  }

  function Lines(rows: seq<Row>): seq<string> {
    seq(|rows|, i requires 0 <= i < |rows| => Line(rows[i]))
  }

  function Contents(rows: seq<Row>): string {
    Join(Lines(rows), "\n") + "\n"
  }

  predicate GoodRow(row: Row) {
    && (forall column <- Columns(row) :: '|' !in column && '\n' !in column)
    && row.name != "" && row.sentence != ""
    && row.kind in {"field", "command"}
    && Atoi(row.limit).Some? && Atoi(row.limit).value >= 0
    && row.remedy in {"none", "required"}
  }

  predicate AllGood(rows: seq<Row>) {
    forall i :: 0 <= i < |rows| ==> GoodRow(rows[i])
  }

  predicate Ascends(rows: seq<Row>) {
    forall i, j :: 0 <= i < j < |rows| ==> Less(rows[i].name, rows[j].name)
  }

  /** Good rows, at least one, with strictly ascending names. */
  predicate IsVocabulary(rows: seq<Row>) {
    rows != [] && AllGood(rows) && Ascends(rows)
  }

  function EntryOf(row: Row): Entry
    requires GoodRow(row)
  {
    Entry(if row.kind == "field" then Field else Command, Atoi(row.limit).value, row.sentence,
          row.remedy == "required")
  }

  /** The entries of rows, later ones added to those of the rows before. */
  function EntriesOf(rows: seq<Row>): Entries
    requires AllGood(rows)
  {
    if rows == [] then map[]
    else
      var last := rows[|rows| - 1];
      EntriesOf(rows[..|rows| - 1])[last.name := EntryOf(last)]
  }

  /** No row hides another: each entry is that of the row with its name. */
  lemma {:induction false} EntriesAreRows(rows: seq<Row>, i: nat)
    requires AllGood(rows) && Ascends(rows) && i < |rows|
    ensures rows[i].name in EntriesOf(rows) && EntriesOf(rows)[rows[i].name] == EntryOf(rows[i])
  {
    var n := |rows| - 1;
    if i < n {
      EntriesAreRows(rows[..n], i);
      LessIsStrict(rows[i].name, rows[n].name);
    }
  }

  lemma {:induction false} EntryHasRow(rows: seq<Row>, name: string) returns (i: nat)
    requires AllGood(rows) && name in EntriesOf(rows)
    ensures i < |rows| && rows[i].name == name
  {
    i := |rows| - 1;
    if rows[i].name != name {
      i := EntryHasRow(rows[..i], name);
    }
  }

  lemma ColumnsOfLine(row: Row)
    requires GoodRow(row)
    ensures Split(Line(row), '|') == Columns(row) && '\n' !in Line(row) && Line(row) != ""
  {
    SplitJoin(Columns(row), '|');
    NotInJoin(Columns(row), "|", '\n');
    SplitOnce("", "", '|');
  }

  lemma {:induction false} NotInJoin(parts: seq<string>, separator: string, c: char)
    requires c !in separator && forall part <- parts :: c !in part
    ensures c !in Join(parts, separator)
  {
    if |parts| > 1 { NotInJoin(parts[1..], separator, c); }
  }

  /** The text of good rows splits into their lines. */
  lemma LinesOfContents(rows: seq<Row>)
    requires rows != [] && AllGood(rows)
    ensures Split(Contents(rows)[..|Contents(rows)| - 1], '\n') == Lines(rows)
    ensures forall i :: 0 <= i < |rows| ==> Split(Lines(rows)[i], '|') == Columns(rows[i])
    ensures Lines(rows)[0] != ""
  {
    forall i | 0 <= i < |rows|
      ensures '\n' !in Lines(rows)[i] && Split(Lines(rows)[i], '|') == Columns(rows[i]) && Lines(rows)[i] != ""
    {
      ColumnsOfLine(rows[i]);
    }
    SplitJoin(Lines(rows), '\n');
    assert Contents(rows)[..|Contents(rows)| - 1] == Join(Lines(rows), "\n");
  }

  function RowOf(parts: seq<string>): (row: Row)
    requires |parts| == 5
    ensures Columns(row) == parts
  {
    Row(parts[0], parts[1], parts[2], parts[3], parts[4])
  }

  /** No two vocabularies have the same text. */
  lemma ContentsDetermineRows(rows: seq<Row>, others: seq<Row>)
    requires IsVocabulary(rows) && IsVocabulary(others) && Contents(rows) == Contents(others)
    ensures rows == others
  {
    LinesOfContents(rows);
    LinesOfContents(others);
    assert |Lines(rows)| == |Lines(others)|;
    forall i | 0 <= i < |rows|
      ensures rows[i] == others[i]
    {
      assert Lines(rows)[i] == Lines(others)[i];
      assert Columns(rows[i]) == Columns(others[i]);
      assert rows[i] == RowOf(Columns(rows[i]));
    }
  }

  lemma RowOfLine(line: string, all: string)
    requires line in Split(all, '\n') && |Split(line, '|')| == 5 && GoodColumns(Split(line, '|'))
    ensures var row := RowOf(Split(line, '|')); Line(row) == line && GoodRow(row)
  {
    JoinSplit(line, '|');
    JoinSplit(all, '\n');
    InJoin(Split(line, '|'), "|");
  }

  lemma {:induction false} InJoin(parts: seq<string>, separator: string)
    ensures forall part <- parts, c <- part :: c in Join(parts, separator)
  {
    if |parts| > 1 { InJoin(parts[1..], separator); }
  }

  /** A text form of a vocabulary. */
  ghost predicate IsText(contents: string) {
    exists rows :: IsVocabulary(rows) && contents == Contents(rows)
  }

  /** A text form of a vocabulary with the given entries. */
  ghost predicate IsTextOf(contents: string, entries: Entries) {
    exists rows :: IsVocabulary(rows) && contents == Contents(rows) && entries == EntriesOf(rows)
  }

  /** What the text of a vocabulary has in each of its lines. */
  predicate GoodLine(lines: seq<string>, i: nat)
    requires i < |lines|
  {
    var parts := Split(lines[i], '|');
    && |parts| == 5 && GoodColumns(parts)
    && (i > 0 ==> Less(Split(lines[i - 1], '|')[0], parts[0]))
  }

  predicate GoodColumns(parts: seq<string>)
    requires |parts| == 5
  {
    && parts[0] != "" && parts[3] != ""
    && parts[1] in {"field", "command"}
    && Atoi(parts[2]).Some? && Atoi(parts[2]).value >= 0
    && parts[4] in {"none", "required"}
  }

  lemma LinesAreGood(contents: string)
    requires contents != "" && contents[|contents| - 1] == '\n'
    ensures IsText(contents) ==>
              var lines := Split(contents[..|contents| - 1], '\n');
              lines[0] != "" && forall i: nat :: i < |lines| ==> GoodLine(lines, i)
  {
    if rows :| IsVocabulary(rows) && contents == Contents(rows) {
      LinesOfContents(rows);
      forall i: nat | i < |rows|
        ensures GoodLine(Lines(rows), i)
      {
        assert rows[i] in rows;
      }
    }
  }

  lemma AscendsOn(rows: seq<Row>, row: Row)
    requires Ascends(rows) && (rows != [] ==> Less(rows[|rows| - 1].name, row.name))
    ensures Ascends(rows + [row])
  {
    forall i | 0 <= i < |rows|
      ensures Less(rows[i].name, row.name)
    {
      if i < |rows| - 1 { LessIsTransitive(rows[i].name, rows[|rows| - 1].name, row.name); }
    }
  }

  lemma EntriesOfMore(rows: seq<Row>, row: Row)
    requires AllGood(rows) && GoodRow(row)
    ensures AllGood(rows + [row])
    ensures EntriesOf(rows + [row]) == EntriesOf(rows)[row.name := EntryOf(row)]
  {
    assert (rows + [row])[..|rows|] == rows;
  }

  /** Reads a line that has to come after a name. */
  method ParseLine(line: string, previous: string) returns (result: Option<(string, Entry)>)
    ensures var parts := Split(line, '|');
            && (result.Some? <==> |parts| == 5 && GoodColumns(parts) && Less(previous, parts[0]))
            && (result.Some? && GoodRow(RowOf(parts)) ==> result.value == (parts[0], EntryOf(RowOf(parts))))
  {
    var parts := Split(line, '|');
    if |parts| != 5 || parts[0] == "" || parts[1] == "" || parts[3] == "" {
      return None;
    }
    if parts[0] == previous || Less(parts[0], previous) {
      LessIsStrict(parts[0], previous);
      return None;
    }
    if parts[1] != "field" && parts[1] != "command" {
      return None;
    }
    var limit := Atoi(parts[2]);
    if limit.None? || limit.value < 0 {
      return None;
    }
    if parts[4] != "none" && parts[4] != "required" {
      return None;
    }
    LessIsTotal(previous, parts[0]);
    var kind := if parts[1] == "field" then Field else Command;
    return Some((parts[0], Entry(kind, limit.value, parts[3], parts[4] == "required")));
  }

  /** The rows of the first lines, as far as they have been read. */
  ghost predicate ReadSoFar(lines: seq<string>, rows: seq<Row>, previous: string, entries: Entries) {
    && |rows| <= |lines|
    && (forall k :: 0 <= k < |rows| ==> Line(rows[k]) == lines[k])
    && AllGood(rows) && Ascends(rows) && entries == EntriesOf(rows)
    && previous == if rows == [] then "" else rows[|rows| - 1].name
  }

  lemma ReadOn(body: string, rows: seq<Row>, previous: string, entries: Entries) returns (row: Row)
    requires var lines := Split(body, '\n');
             && ReadSoFar(lines, rows, previous, entries) && |rows| < |lines|
             && var parts := Split(lines[|rows|], '|');
                |parts| == 5 && GoodColumns(parts) && Less(previous, parts[0])
    ensures GoodRow(row) && row == RowOf(Split(Split(body, '\n')[|rows|], '|'))
    ensures ReadSoFar(Split(body, '\n'), rows + [row], row.name, entries[row.name := EntryOf(row)])
  {
    var lines := Split(body, '\n');
    row := RowOf(Split(lines[|rows|], '|'));
    RowOfLine(lines[|rows|], body);
    AscendsOn(rows, row);
    EntriesOfMore(rows, row);
  }

  lemma AllRead(contents: string, rows: seq<Row>, previous: string, entries: Entries)
    requires contents != "" && contents[|contents| - 1] == '\n'
    requires var lines := Split(contents[..|contents| - 1], '\n');
             |rows| == |lines| && ReadSoFar(lines, rows, previous, entries)
    ensures IsTextOf(contents, entries) && IsText(contents)
  {
    var body := contents[..|contents| - 1];
    JoinSplit(body, '\n');
    assert Lines(rows) == Split(body, '\n');
    assert contents == body + "\n" == Contents(rows);
    assert rows != [] && IsVocabulary(rows);
  }

  /** A good line passes the checks made of it, which compare its name with that of the line before. */
  lemma GoodLineParses(lines: seq<string>, rows: seq<Row>, previous: string, entries: Entries)
    requires ReadSoFar(lines, rows, previous, entries) && |rows| < |lines|
    ensures GoodLine(lines, |rows|) ==>
              var parts := Split(lines[|rows|], '|');
              |parts| == 5 && GoodColumns(parts) && Less(previous, parts[0])
  {
    if rows != [] {
      ColumnsOfLine(rows[|rows| - 1]);
    }
  }

  /** Reads a vocabulary. A text is accepted exactly when it is the text form of good rows in strictly
      ascending order, and then the entries are those of the rows. */
  method ParseVocabulary(contents: string) returns (result: Option<Entries>)
    ensures result.Some? <==> IsText(contents)
    ensures result.Some? ==> IsTextOf(contents, result.value)
  {
    if contents == "" || contents[|contents| - 1] != '\n' {
      return None;
    }
    LinesAreGood(contents);
    var lines := Split(contents[..|contents| - 1], '\n');
    if lines[0] == "" {
      return None;
    }
    var entries: Entries := map[];
    var previous := "";
    ghost var rows: seq<Row> := [];
    for i := 0 to |lines|
      invariant |rows| == i && ReadSoFar(lines, rows, previous, entries)
    {
      GoodLineParses(lines, rows, previous, entries);
      var parsed := ParseLine(lines[i], previous);
      if parsed.None? {
        return None;
      }
      ghost var row := ReadOn(contents[..|contents| - 1], rows, previous, entries);
      entries := entries[parsed.value.0 := parsed.value.1];
      previous := parsed.value.0;
      rows := rows + [row];
    }
    AllRead(contents, rows, previous, entries);
    return Some(entries);
  }
}
