/** The checks the client makes of its error vocabulary before it does anything else. */
module StartUp {
  import opened Strings
  import opened Placeholders
  import opened Vocabulary

  const REMEDIES: map<string, string> := map[
    "unauthenticated" := "Run biot login.",
    "revision_conflict" := "Run the command again.",
    "publication_not_active" := "choose an active publication."]

  /** The placeholders a sentence must have, in order. */
  function ExpectedPlaceholders(reason: string): seq<string> {
    if reason == "revision_conflict" then ["revision"] else []
  }

  predicate IsSpace(c: char) {
    || c in {'\t', '\n', '\U{b}', '\U{c}', '\r', ' ', '\U{85}', '\U{a0}', '\U{1680}'}
    || '\U{2000}' <= c <= '\U{200a}'
    || c in {'\U{2028}', '\U{2029}', '\U{202f}', '\U{205f}', '\U{3000}'}
  }

  /** The white space of Unicode, by code point. */
  lemma SpacesAre(c: char)
    ensures IsSpace(c) <==>
      var n := c as int;
      || 9 <= n <= 13 || n == 32 || n == 133 || n == 160 || n == 5760 || 8192 <= n <= 8202
      || n == 8232 || n == 8233 || n == 8239 || n == 8287 || n == 12288
  {
  }

  predicate Blank(s: string) {
    forall c <- s :: IsSpace(c)
  }

  // ----- Names in order -----

  predicate NotDescending(names: seq<string>) {
    forall i, j :: 0 <= i < j < |names| ==> !Less(names[j], names[i])
  }

  lemma NotLessTransitive(a: string, b: string, c: string)
    requires !Less(b, a) && !Less(c, b)
    ensures !Less(c, a)
  {
    LessIsTotal(b, c);
    if Less(c, a) && b != c {
      LessIsTransitive(b, c, a);
    }
  }

  /** Sorted apart from one place. */
  predicate NotDescendingBut(names: seq<string>, at: int) {
    forall i, j :: 0 <= i < j < |names| && j != at ==> !Less(names[j], names[i])
  }

  lemma Placed(names: seq<string>, at: nat)
    requires at < |names| && NotDescendingBut(names, at)
    requires at > 0 ==> !Less(names[at], names[at - 1])
    ensures NotDescending(names)
  {
    forall i | 0 <= i < at
      ensures !Less(names[at], names[i])
    {
      if i < at - 1 { NotLessTransitive(names[i], names[at - 1], names[at]); }
    }
  }

  /** Sinking a value by one place. */
  lemma Sunk(names: seq<string>, at: nat)
    requires 0 < at < |names| && NotDescendingBut(names, at) && Less(names[at], names[at - 1])
    ensures NotDescendingBut(names[at := names[at - 1]][at - 1 := names[at]], at - 1)
  {
    LessIsStrict(names[at], names[at - 1]);
  }

  /** Sorts in place: each value sinks until the one before it is not greater. */
  method SlicesSort(values: array<string>)
    modifies values
    ensures multiset(values[..]) == multiset(old(values[..]))
    ensures NotDescending(values[..])
  {
    var i := 1;
    while i < values.Length
      invariant 1 <= i
      invariant multiset(values[..]) == multiset(old(values[..]))
      invariant values.Length > 0 ==> i <= values.Length && NotDescending(values[..i])
      decreases values.Length - i
    {
      var j := i;
      while j > 0 && Less(values[j], values[j - 1])
        invariant 0 <= j <= i < values.Length
        invariant multiset(values[..]) == multiset(old(values[..]))
        invariant NotDescendingBut(values[..i + 1], j)
      {
        Sunk(values[..i + 1], j);
        ghost var was := values[..i + 1];
        values[j], values[j - 1] := values[j - 1], values[j];
        assert values[..i + 1] == was[j := was[j - 1]][j - 1 := was[j]];
        j := j - 1;
      }
      Placed(values[..i + 1], j);
      i := i + 1;
    }
  }

  lemma AscendingIfDistinct(names: seq<string>)
    requires NotDescending(names) && forall name :: multiset(names)[name] <= 1
    ensures Ascending(names)
  {
    forall i, j | 0 <= i < j < |names|
      ensures Less(names[i], names[j])
    {
      assert multiset(names)[names[i]] <= 1;
      assert names == names[..i + 1] + names[i + 1..];
      assert names[i] in names[..i + 1] && names[j] in names[i + 1..];
      assert multiset(names) == multiset(names[..i + 1]) + multiset(names[i + 1..]);
      LessIsTotal(names[i], names[j]);
    }
  }

  /** The names of the entries of one kind, each once, in ascending order. */
  method VocabularyNames(entries: Entries, kind: Kind) returns (sorted: array<string>)
    ensures fresh(sorted) && Ascending(sorted[..])
    ensures forall name :: name in sorted[..] <==> name in entries && entries[name].kind == kind
  {
    var names: seq<string> := [];
    var left := entries.Keys;
    while left != {}
      invariant left <= entries.Keys
      invariant forall name :: name in names <==> name in entries.Keys - left && entries[name].kind == kind
      invariant forall name :: multiset(names)[name] <= 1
    {
      var name :| name in left;
      assert name !in names;
      left := left - {name};
      if entries[name].kind == kind {
        names := names + [name];
      }
    }
    sorted := new string[|names|](i requires 0 <= i < |names| => names[i]);
    assert sorted[..] == names;
    SlicesSort(sorted);
    AscendingIfDistinct(sorted[..]);
    assert forall name :: name in names <==> name in multiset(names);
    assert forall name :: name in sorted[..] <==> name in multiset(sorted[..]);
  }

  // ----- The checks -----

  predicate IsUpper(c: char) { 'A' <= c <= 'Z' }

  predicate IsLower(c: char) { 'a' <= c <= 'z' }

  /** A remedy goes on from a field's sentence and stands behind a command's. */
  predicate Fitting(remedy: string, kind: Kind) {
    !Blank(remedy) && if kind == Field then IsLower(remedy[0]) else IsUpper(remedy[0])
  }

  /** An entry is fit for use: it says something, it declares a remedy exactly if there is one, the
      remedy fits the kind, and its braces are those of the expected placeholders. */
  ghost predicate Fit(reason: string, entry: Entry) {
    && !Blank(entry.sentence)
    && (entry.remedy <==> reason in REMEDIES)
    && (entry.remedy ==> reason in REMEDIES && Fitting(REMEDIES[reason], entry.kind))
    && HasPlaceholders(entry.sentence, ExpectedPlaceholders(reason))
  }

  /** What the client may rely on after start-up. */
  ghost predicate Complete(entries: Entries) {
    && (forall reason <- entries :: Fit(reason, entries[reason]))
    && REMEDIES.Keys <= entries.Keys
  }

  method SentencesPresent(entries: Entries, kind: Kind) returns (ok: bool)
    ensures ok <==> forall name <- entries :: entries[name].kind == kind ==> !Blank(entries[name].sentence)
  {
    var names := VocabularyNames(entries, kind);
    for i := 0 to names.Length
      invariant forall name :: name in names[..i] ==> !Blank(entries[name].sentence)
    {
      assert names[i] in names[..] && names[..i + 1] == names[..i] + [names[i]];
      if Blank(entries[names[i]].sentence) {
        return false;
      }
    }
    assert names[..names.Length] == names[..];
    return true;
  }

  /** The checks of one entry behind those of its sentence. */
  method CheckEntry(reason: string, entry: Entry) returns (ok: bool)
    requires !Blank(entry.sentence)
    ensures ok <==> Fit(reason, entry)
  {
    if entry.remedy != (reason in REMEDIES) {
      return false;
    }
    if entry.remedy {
      var remedy := REMEDIES[reason];
      if Blank(remedy) {
        return false;
      }
      if (entry.kind == Field && !IsLower(remedy[0])) || (entry.kind == Command && !IsUpper(remedy[0])) {
        return false;
      }
    }
    ok := ValidatePlaceholders(entry.sentence, ExpectedPlaceholders(reason));
  }

  /** Whether the client starts. The entries are visited in any order. */
  method Init(entries: Entries) returns (ok: bool)
    ensures ok <==> Complete(entries)
  {
    ok := SentencesPresent(entries, Command);
    if !ok { return; }
    ok := SentencesPresent(entries, Field);
    if !ok { return; }
    var left := entries.Keys;
    while left != {}
      invariant left <= entries.Keys
      invariant forall reason :: reason in entries.Keys - left ==> Fit(reason, entries[reason])
    {
      var reason :| reason in left;
      left := left - {reason};
      ok := CheckEntry(reason, entries[reason]);
      if !ok { return; }
    }
    left := REMEDIES.Keys;
    while left != {}
      invariant left <= REMEDIES.Keys
      invariant REMEDIES.Keys - left <= entries.Keys
    {
      var reason :| reason in left;
      left := left - {reason};
      if reason !in entries || !entries[reason].remedy {
        return false;
      }
    }
    return true;
  }

  /** What kind of entry each remedy demands. */
  lemma KindsForced(entries: Entries)
    requires Complete(entries)
    ensures "unauthenticated" in entries && entries["unauthenticated"].kind == Command
    ensures "revision_conflict" in entries && entries["revision_conflict"].kind == Command
    ensures "publication_not_active" in entries && entries["publication_not_active"].kind == Field
  {
    KindForced(entries, "unauthenticated");
    KindForced(entries, "revision_conflict");
    KindForced(entries, "publication_not_active");
  }

  lemma KindForced(entries: Entries, reason: string)
    requires Complete(entries) && reason in REMEDIES
    ensures reason in entries
    ensures entries[reason].kind == if REMEDIES[reason][0] in "ABCDEFGHIJKLMNOPQRSTUVWXYZ" then Command else Field
  {
    assert reason in entries && Fit(reason, entries[reason]);
    CasesAre(REMEDIES[reason][0]);
  }

  lemma CasesAre(c: char)
    ensures IsUpper(c) <==> c in "ABCDEFGHIJKLMNOPQRSTUVWXYZ"
    ensures IsLower(c) <==> c in "abcdefghijklmnopqrstuvwxyz"
  {
  }

  /** The advice itself. */
  lemma RemediesAre()
    ensures REMEDIES.Keys == {"unauthenticated", "revision_conflict", "publication_not_active"}
    ensures REMEDIES["unauthenticated"] == "Run biot login."
    ensures REMEDIES["revision_conflict"] == "Run the command again."
    ensures REMEDIES["publication_not_active"] == "choose an active publication."
  {
  }
}
