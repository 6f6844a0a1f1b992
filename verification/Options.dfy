/** The command line's hand-written option parsers. */
module Options {
  import opened Common
  import Texts

  predicate Dashed(argument: string) {
    argument != "" && argument[0] == '-'
  }

  predicate Known(argument: string, allowed: seq<string>) {
    Dashed(argument) ==> argument in allowed
  }

  predicate FirstUnknown(arguments: seq<string>, allowed: seq<string>, i: nat) {
    && i < |arguments|
    && !Known(arguments[i], allowed)
    && forall k :: 0 <= k < i ==> Known(arguments[k], allowed)
  }

  /** Finds the first argument that looks like a flag and is none of the command's own. It looks at
      every argument, those that will be taken as values too. */
  method RejectUnknown(arguments: seq<string>, allowed: seq<string>) returns (unknown: Option<string>)
    ensures unknown == None <==>
            forall i :: 0 <= i < |arguments| && |arguments[i]| > 0 && arguments[i][0] == '-' ==> arguments[i] in allowed
    ensures unknown.Some? ==> exists i: nat :: FirstUnknown(arguments, allowed, i) && arguments[i] == unknown.value
  {
    for i := 0 to |arguments|
      invariant forall k :: 0 <= k < i ==> Known(arguments[k], allowed)
    {
      if Dashed(arguments[i]) && arguments[i] !in allowed {
        assert FirstUnknown(arguments, allowed, i);
        return Some(arguments[i]);
      }
    }
    return None;
  }

  datatype ParseError =
    | UnknownFlag
    | Incomplete
    | Repeated
    | BadValue
    | MissingRequired
    | Conflicting

  // ----- biot create -----

  datatype Kind = Repository | Name | Node | Layer | Secret | FetchCredential | Stdin

  /** A flag with its value, or `--stdin` alone. */
  datatype Group = Group(kind: Kind, value: string)

  function Flag(kind: Kind): string {
    match kind
    case Repository => "--repo"
    case Name => "--name"
    case Node => "--node"
    case Layer => "--layer"
    case Secret => "--secret"
    case FetchCredential => "--fetch-credential"
    case Stdin => "--stdin"
  }

  const CREATE_FLAGS := ["--repo", "--name", "--node", "--layer", "--secret", "--fetch-credential", "--stdin"]

  function KindOf(flag: string): (kind: Option<Kind>)
    ensures kind.Some? ==> Flag(kind.value) == flag
  {
    if flag == "--repo" then Some(Repository)
    else if flag == "--name" then Some(Name)
    else if flag == "--node" then Some(Node)
    else if flag == "--layer" then Some(Layer)
    else if flag == "--secret" then Some(Secret)
    else if flag == "--fetch-credential" then Some(FetchCredential)
    else if flag == "--stdin" then Some(Stdin)
    else None
  }

  lemma KindOfFlag(kind: Kind)
    ensures KindOf(Flag(kind)) == Some(kind) && Flag(kind) in CREATE_FLAGS
  {
    match kind case _ =>
  }

  predicate WellFormed(groups: seq<Group>) {
    forall i :: 0 <= i < |groups| && groups[i].kind == Stdin ==> groups[i].value == ""
  }

  function Tokens(g: Group): seq<string> {
    if g.kind == Stdin then [Flag(Stdin)] else [Flag(g.kind), g.value]
  }

  function Print(groups: seq<Group>): seq<string> {
    if groups == [] then [] else Tokens(groups[0]) + Print(groups[1..])
  }

  /** The groups an argument list is made of, if it is. */
  function Split(arguments: seq<string>): Option<seq<Group>>
    decreases |arguments|
  {
    if arguments == [] then Some([])
    else
      match KindOf(arguments[0])
      case None => None
      case Some(kind) =>
        if kind == Stdin then Before(Group(Stdin, ""), Split(arguments[1..]))
        else if |arguments| == 1 then None
        else Before(Group(kind, arguments[1]), Split(arguments[2..]))
  }

  function Before(g: Group, groups: Option<seq<Group>>): Option<seq<Group>> {
    match groups case None => None case Some(gs) => Some([g] + gs)
  }

  lemma {:induction false} SplitPrint(groups: seq<Group>)
    requires WellFormed(groups)
    ensures Split(Print(groups)) == Some(groups)
  {
    if groups != [] {
      var g, rest := groups[0], groups[1..];
      SplitPrint(rest);
      KindOfFlag(g.kind);
      var all := Print(groups);
      assert all[0] == Flag(g.kind) && all[|Tokens(g)|..] == Print(rest);
      assert g.kind != Stdin ==> all[1] == g.value;
      assert g.kind == Stdin ==> g == Group(Stdin, "");
      assert groups == [g] + rest;
    }
  }

  lemma {:induction false} PrintSplit(arguments: seq<string>)
    ensures match Split(arguments) case None => true case Some(groups) => WellFormed(groups) && Print(groups) == arguments
    decreases |arguments|
  {
    if arguments != [] && Split(arguments).Some? {
      var first, rest := SplitFirst(arguments);
      PrintSplit(rest);
      var groups := [first] + Split(rest).value;
      assert groups[1..] == Split(rest).value;
    }
  }

  lemma SplitFirst(arguments: seq<string>) returns (first: Group, rest: seq<string>)
    requires arguments != [] && Split(arguments).Some?
    ensures |rest| < |arguments| && arguments == Tokens(first) + rest && WellFormed([first])
    ensures Split(rest).Some? && Split(arguments).value == [first] + Split(rest).value
  {
    var kind := KindOf(arguments[0]).value;
    if kind == Stdin {
      first, rest := Group(Stdin, ""), arguments[1..];
    } else {
      first, rest := Group(kind, arguments[1]), arguments[2..];
    }
    assert arguments == Tokens(first) + rest;
  }

  /** The values given for one flag, in their order. */
  function Values(groups: seq<Group>, kind: Kind): seq<string> {
    if groups == [] then []
    else
      var last := groups[|groups| - 1];
      Values(groups[..|groups| - 1], kind) + if last.kind == kind then [last.value] else []
  }

  function LastOr(values: seq<string>, fallback: string): string {
    if values == [] then fallback else values[|values| - 1]
  }

  datatype CreateOptions = CreateOptions(
    repository: string,
    name: string,
    node: string,
    layers: seq<string>,
    secretNames: seq<string>,
    fetchCredentials: seq<string>,
    stdin: bool)

  /** What groups ask for: the last value of a single flag, all values of a repeatable one. */
  function Meaning(groups: seq<Group>): CreateOptions {
    CreateOptions(
      LastOr(Values(groups, Repository), ""),
      LastOr(Values(groups, Name), ""),
      LastOr(Values(groups, Node), ""),
      Values(groups, Layer),
      Values(groups, Secret),
      Values(groups, FetchCredential),
      Values(groups, Stdin) != [])
  }

  /** Standard input, when used, serves exactly one value. */
  predicate ValidOptions(o: CreateOptions) {
    o.repository != "" && o.name != "" && (o.stdin ==> |o.secretNames| + |o.fetchCredentials| == 1)
  }

  function Judge(o: CreateOptions): Result<CreateOptions, ParseError> {
    if ValidOptions(o) then Ok(o)
    else if o.repository == "" || o.name == "" then Err(MissingRequired)
    else Err(Conflicting)
  }

  predicate AllKnown(arguments: seq<string>) {
    forall i :: 0 <= i < |arguments| ==> Known(arguments[i], CREATE_FLAGS)
  }

  /** What parsing an argument list must give. */
  function ParsedCreate(arguments: seq<string>): Result<CreateOptions, ParseError> {
    if !AllKnown(arguments) then Err(UnknownFlag)
    else match Split(arguments) case None => Err(Incomplete) case Some(groups) => Judge(Meaning(groups))
  }

  function Behind(done: seq<Group>, groups: Option<seq<Group>>): Option<seq<Group>> {
    match groups case None => None case Some(gs) => Some(done + gs)
  }

  lemma BehindBefore(done: seq<Group>, g: Group, groups: Option<seq<Group>>)
    ensures Behind(done, Before(g, groups)) == Behind(done + [g], groups)
    ensures Behind([], groups) == groups
  {
    if groups.Some? {
      Associative(done, [g], groups.value);
      assert [] + groups.value == groups.value;
    }
  }

  /** A create is refused for an unknown flag exactly if some argument begins with a dash and is none of
      its seven flags, wherever that argument stands. */
  lemma UnknownFlagRefused(arguments: seq<string>)
    ensures ParsedCreate(arguments) == Err(UnknownFlag) <==>
      exists i :: 0 <= i < |arguments| && |arguments[i]| > 0 && arguments[i][0] == '-' && !CreateFlag(arguments[i])
  {
    forall i | 0 <= i < |arguments|
      ensures arguments[i] in CREATE_FLAGS <==> CreateFlag(arguments[i])
    {
      CreateFlagsAre(arguments[i]);
    }
  }

  predicate CreateFlag(flag: string) {
    || flag == "--repo" || flag == "--name" || flag == "--node" || flag == "--layer"
    || flag == "--secret" || flag == "--fetch-credential" || flag == "--stdin"
  }

  lemma CreateFlagsAre(flag: string)
    ensures flag in CREATE_FLAGS <==> CreateFlag(flag)
  {
  }

  method ParseCreateOptions(arguments: seq<string>) returns (result: Result<CreateOptions, ParseError>)
    ensures result == ParsedCreate(arguments)
  {
    var unknown := RejectUnknown(arguments, CREATE_FLAGS);
    if unknown.Some? {
      return Err(UnknownFlag);
    }
    var options := CreateOptions("", "", "", [], [], [], false);
    var index := 0;
    ghost var done: seq<Group> := [];
    BehindBefore([], Group(Stdin, ""), Split(arguments));
    assert arguments[0..] == arguments;
    while index < |arguments|
      invariant 0 <= index <= |arguments|
      invariant options == Meaning(done)
      invariant Split(arguments) == Behind(done, Split(arguments[index..]))
      decreases |arguments| - index
    {
      var argument := arguments[index];
      ghost var left := arguments[index..];
      if argument == "--stdin" {
        assert left[1..] == arguments[index + 1..];
        options := options.(stdin := true);
        MeaningAppend(done, Group(Stdin, ""));
        BehindBefore(done, Group(Stdin, ""), Split(left[1..]));
        done := done + [Group(Stdin, "")];
        index := index + 1;
        continue;
      }
      if !("--" <= argument) {
        NoDashNoKind(argument);
        return Err(Incomplete);
      }
      if index + 1 >= |arguments| {
        return Err(Incomplete);
      }
      var value := arguments[index + 1];
      var kind := KindOf(argument);
      assert left[1] == value && left[2..] == arguments[index + 2..];
      match kind {
        case Some(Repository) => options := options.(repository := value);
        case Some(Name) => options := options.(name := value);
        case Some(Node) => options := options.(node := value);
        case Some(Layer) => options := options.(layers := options.layers + [value]);
        case Some(Secret) => options := options.(secretNames := options.secretNames + [value]);
        case Some(FetchCredential) => options := options.(fetchCredentials := options.fetchCredentials + [value]);
        case _ => return Err(Incomplete);
      }
      MeaningAppend(done, Group(kind.value, value));
      BehindBefore(done, Group(kind.value, value), Split(left[2..]));
      done := done + [Group(kind.value, value)];
      index := index + 2;
    }
    assert arguments[index..] == [] && done + [] == done;
    if options.repository == "" || options.name == "" {
      return Err(MissingRequired);
    }
    if options.stdin && |options.secretNames| + |options.fetchCredentials| != 1 {
      return Err(Conflicting);
    }
    return Ok(options);
  }

  lemma FlagHasDashes(kind: Kind)
    ensures "--" <= Flag(kind)
  {
  }

  lemma NoDashNoKind(argument: string)
    requires !("--" <= argument)
    ensures KindOf(argument) == None
  {
    if KindOf(argument).Some? {
      FlagHasDashes(KindOf(argument).value);
    }
  }

  lemma ValuesAppend(groups: seq<Group>, g: Group, kind: Kind)
    ensures Values(groups + [g], kind) == Values(groups, kind) + if g.kind == kind then [g.value] else []
  {
    assert (groups + [g])[..|groups|] == groups;
  }

  lemma MeaningAppend(groups: seq<Group>, g: Group)
    ensures var o := Meaning(groups);
      Meaning(groups + [g]) ==
      match g.kind
      case Repository => o.(repository := g.value)
      case Name => o.(name := g.value)
      case Node => o.(node := g.value)
      case Layer => o.(layers := o.layers + [g.value])
      case Secret => o.(secretNames := o.secretNames + [g.value])
      case FetchCredential => o.(fetchCredentials := o.fetchCredentials + [g.value])
      case Stdin => o.(stdin := true)
  {
    forall kind: Kind ensures Values(groups + [g], kind) == Values(groups, kind) + if g.kind == kind then [g.value] else [] {
      ValuesAppend(groups, g, kind);
    }
  }

  /** The same values for every flag, in the same order for each. */
  ghost predicate SameValues(groups: seq<Group>, other: seq<Group>) {
    forall kind: Kind :: Values(groups, kind) == Values(other, kind)
  }

  lemma {:induction false} ValuesHold(groups: seq<Group>, i: nat)
    requires i < |groups|
    ensures groups[i].value in Values(groups, groups[i].kind)
  {
    var front := groups[..|groups| - 1];
    if i < |front| {
      ValuesHold(front, i);
      assert front[i] == groups[i];
    }
  }

  lemma {:induction false} ValuesCome(groups: seq<Group>, kind: Kind, value: string)
    requires value in Values(groups, kind)
    ensures Group(kind, value) in groups
  {
    var front := groups[..|groups| - 1];
    if value in Values(front, kind) {
      ValuesCome(front, kind, value);
    }
  }

  predicate KnownGroups(groups: seq<Group>) {
    forall g <- groups :: Known(g.value, CREATE_FLAGS)
  }

  lemma {:induction false} PrintKnown(groups: seq<Group>)
    requires WellFormed(groups)
    ensures AllKnown(Print(groups)) <==> KnownGroups(groups)
  {
    if groups != [] {
      var g, rest := groups[0], groups[1..];
      PrintKnown(rest);
      KnownAppend(Tokens(g), Print(rest));
      TokensKnown(g);
      assert groups == [g] + rest;
      assert KnownGroups(groups) <==> Known(g.value, CREATE_FLAGS) && KnownGroups(rest);
    }
  }

  lemma KnownAppend(some: seq<string>, more: seq<string>)
    ensures AllKnown(some + more) <==> AllKnown(some) && AllKnown(more)
  {
    assert forall i :: 0 <= i < |some| ==> (some + more)[i] == some[i];
    assert forall i :: 0 <= i < |more| ==> (some + more)[|some| + i] == more[i];
  }

  lemma TokensKnown(g: Group)
    requires g.kind == Stdin ==> g.value == ""
    ensures AllKnown(Tokens(g)) <==> Known(g.value, CREATE_FLAGS)
  {
    KindOfFlag(g.kind);
    if g.kind != Stdin {
      assert Tokens(g)[0] == Flag(g.kind) && Tokens(g)[1] == g.value;
    }
  }

  lemma ParsedPrint(groups: seq<Group>)
    requires WellFormed(groups)
    ensures ParsedCreate(Print(groups)) ==
            if KnownGroups(groups) then Judge(Meaning(groups)) else Err(UnknownFlag)
  {
    SplitPrint(groups);
    PrintKnown(groups);
  }

  /** Whole option groups may be put in any order that keeps the order within each flag. */
  lemma ReorderingKeepsOptions(groups: seq<Group>, other: seq<Group>)
    requires WellFormed(groups) && WellFormed(other) && SameValues(groups, other)
    ensures ParsedCreate(Print(groups)) == ParsedCreate(Print(other))
  {
    ParsedPrint(groups);
    ParsedPrint(other);
    if KnownGroups(groups) { SameKnown(groups, other); }
    if KnownGroups(other) { SameKnown(other, groups); }
    assert Meaning(groups) == Meaning(other);
  }

  lemma SameKnown(groups: seq<Group>, other: seq<Group>)
    requires SameValues(groups, other) && KnownGroups(groups)
    ensures KnownGroups(other)
  {
    forall i | 0 <= i < |other|
      ensures Known(other[i].value, CREATE_FLAGS)
    {
      ValuesHold(other, i);
      ValuesCome(groups, other[i].kind, other[i].value);
    }
  }

  function Groups(kind: Kind, values: seq<string>): seq<Group> {
    if values == [] then [] else [Group(kind, values[0])] + Groups(kind, values[1..])
  }

  /** The values options hold for one flag. */
  function ValuesOf(o: CreateOptions, kind: Kind): seq<string> {
    match kind
    case Repository => [o.repository]
    case Name => [o.name]
    case Node => if o.node == "" then [] else [o.node]
    case Layer => o.layers
    case Secret => o.secretNames
    case FetchCredential => o.fetchCredentials
    case Stdin => if o.stdin then [""] else []
  }

  const KINDS := [Repository, Name, Node, Layer, Secret, FetchCredential, Stdin]

  /** Options written down flag by flag. */
  function WrittenFor(o: CreateOptions, kinds: seq<Kind>): seq<Group> {
    if kinds == [] then [] else Groups(kinds[0], ValuesOf(o, kinds[0])) + WrittenFor(o, kinds[1..])
  }

  function Written(o: CreateOptions): seq<Group> {
    WrittenFor(o, KINDS)
  }

  lemma {:induction false} ValuesConcat(a: seq<Group>, b: seq<Group>, kind: Kind)
    ensures Values(a + b, kind) == Values(a, kind) + Values(b, kind)
  {
    if b == [] {
      assert a + b == a;
    } else {
      var front := b[..|b| - 1];
      ValuesConcat(a, front, kind);
      assert (a + b)[..|a + b| - 1] == a + front;
    }
  }

  lemma {:induction false} ValuesOfGroups(kind: Kind, values: seq<string>, other: Kind)
    ensures Values(Groups(kind, values), other) == if other == kind then values else []
  {
    if values != [] {
      ValuesOfGroups(kind, values[1..], other);
      ValuesConcat([Group(kind, values[0])], Groups(kind, values[1..]), other);
      assert Values([Group(kind, values[0])], other) == if other == kind then [values[0]] else [] by {
        assert [Group(kind, values[0])][..0] == [];
      }
    }
  }

  lemma {:induction false} ValuesOfWrittenFor(o: CreateOptions, kinds: seq<Kind>, kind: Kind)
    requires forall i, j :: 0 <= i < j < |kinds| ==> kinds[i] != kinds[j]
    ensures Values(WrittenFor(o, kinds), kind) == if kind in kinds then ValuesOf(o, kind) else []
  {
    if kinds != [] {
      ValuesOfWrittenFor(o, kinds[1..], kind);
      ValuesConcat(Groups(kinds[0], ValuesOf(o, kinds[0])), WrittenFor(o, kinds[1..]), kind);
      ValuesOfGroups(kinds[0], ValuesOf(o, kinds[0]), kind);
      assert kind in kinds <==> kind == kinds[0] || kind in kinds[1..];
    }
  }

  lemma ValuesOfWritten(o: CreateOptions, kind: Kind)
    ensures Values(Written(o), kind) == ValuesOf(o, kind)
  {
    ValuesOfWrittenFor(o, KINDS, kind);
    match kind case _ => assert kind in KINDS;
  }

  lemma WrittenGroup(o: CreateOptions, i: nat)
    requires forall kind: Kind, v :: v in ValuesOf(o, kind) ==> !Dashed(v)
    requires i < |Written(o)|
    ensures var g := Written(o)[i]; Known(g.value, CREATE_FLAGS) && (g.kind == Stdin ==> g.value == "")
  {
    var g := Written(o)[i];
    ValuesHold(Written(o), i);
    ValuesOfWritten(o, g.kind);
  }

  /** Valid options none of whose values starts with a dash are parsed back from how they are written. */
  lemma CreateOptionsRoundTrip(o: CreateOptions)
    requires ValidOptions(o)
    requires forall kind: Kind, v :: v in ValuesOf(o, kind) ==> !Dashed(v)
    ensures ParsedCreate(Print(Written(o))) == Ok(o)
  {
    var groups := Written(o);
    forall i | 0 <= i < |groups|
      ensures Known(groups[i].value, CREATE_FLAGS) && (groups[i].kind == Stdin ==> groups[i].value == "")
    {
      WrittenGroup(o, i);
    }
    ParsedPrint(groups);
    MeaningOfWritten(o);
  }

  lemma MeaningOfWritten(o: CreateOptions)
    ensures Meaning(Written(o)) == o
  {
    forall kind: Kind
      ensures Values(Written(o), kind) == ValuesOf(o, kind)
    {
      ValuesOfWritten(o, kind);
    }
  }

  // ----- biot share and unshare -----

  datatype ShareOptions = ShareOptions(biot: string, email: string, port: nat, shell: bool)

  const SHARE_FLAGS := ["--to", "--port", "--shell"]

  /** An argument list shares a Biot in one of four shapes and no other: the email and either the shell
      or one valid port, in either order, each once, behind the Biot. */
  ghost predicate SharesAs(arguments: seq<string>, o: ShareOptions) {
    && (forall i :: 0 <= i < |arguments| ==> Known(arguments[i], SHARE_FLAGS))
    && o.email != ""
    && if o.shell then
         && o.port == 0
         && (|| arguments == [o.biot, "--to", o.email, "--shell"]
             || arguments == [o.biot, "--shell", "--to", o.email])
       else
         && 1 <= o.port <= 65535
         && exists text :: Texts.Atoi(text) == Some(o.port) &&
              (|| arguments == [o.biot, "--to", o.email, "--port", text]
               || arguments == [o.biot, "--port", text, "--to", o.email])
  }

  ghost predicate ShareAnswers(arguments: seq<string>, answer: Option<ShareOptions>) {
    match answer
    case Some(o) => SharesAs(arguments, o)
    case None => forall o :: !SharesAs(arguments, o)
  }

  method ParseShareOptions(arguments: seq<string>) returns (options: Option<ShareOptions>)
    ensures ShareAnswers(arguments, options)
  {
    var unknown := RejectUnknown(arguments, SHARE_FLAGS);
    if unknown.Some? || |arguments| == 0 {
      return None;
    }
    var o := ShareOptions(arguments[0], "", 0, false);
    var index := 1;
    while index < |arguments|
      invariant 1 <= index <= |arguments| && o.biot == arguments[0]
      invariant ShareProgress(arguments, o, index)
      decreases |arguments| - index
    {
      if arguments[index] == "--to" {
        if index + 1 >= |arguments| || arguments[index + 1] == "" || o.email != "" {
          return None;
        }
        o := o.(email := arguments[index + 1]);
        index := index + 2;
      } else if arguments[index] == "--port" {
        if index + 1 >= |arguments| || o.port != 0 {
          return None;
        }
        var port := ParsePort(arguments[index + 1]);
        if port == None {
          return None;
        }
        o := o.(port := port.value);
        index := index + 2;
      } else if arguments[index] == "--shell" {
        if o.shell {
          return None;
        }
        o := o.(shell := true);
        index := index + 1;
      } else {
        return None;
      }
    }
    if o.email == "" || (o.shell && o.port != 0) || (!o.shell && o.port == 0) {
      return None;
    }
    WholeShare(arguments, o);
    return Some(o);
  }

  method ParsePort(text: string) returns (port: Option<nat>)
    ensures match port
      case Some(n) => 1 <= n <= 65535 && Texts.Atoi(text) == Some(n)
      case None => forall n :: Texts.Atoi(text) == Some(n) ==> !(1 <= n <= 65535)
  {
    var parsed := Texts.Atoi(text);
    if parsed == None || parsed.value < 1 || parsed.value > 65535 {
      return None;
    }
    return Some(parsed.value);
  }

  lemma WholeShare(arguments: seq<string>, o: ShareOptions)
    requires arguments != [] && o.biot == arguments[0]
    requires forall i :: 0 <= i < |arguments| ==> Known(arguments[i], SHARE_FLAGS)
    requires ShareProgress(arguments, o, |arguments|) && o.email != "" && o.shell == (o.port == 0)
    ensures SharesAs(arguments, o)
  {
    if !o.shell {
      assert Texts.Atoi(arguments[if arguments[1] == "--to" then 4 else 2]) == Some(o.port);
    }
  }

  /** What the arguments before `index` are when the options so far have been set. */
  predicate ShareProgress(arguments: seq<string>, o: ShareOptions, index: nat)
    requires 1 <= index <= |arguments|
  {
    && 0 <= o.port <= 65535
    && match (o.email != "", o.port != 0, o.shell)
       case (false, false, false) => index == 1
       case (true, false, false) => index == 3 && EmailAt(arguments, o, 1)
       case (false, true, false) => index == 3 && PortAt(arguments, o, 1)
       case (false, false, true) => index == 2 && arguments[1] == "--shell"
       case (true, true, false) =>
         index == 5 && (if arguments[1] == "--to" then EmailAt(arguments, o, 1) && PortAt(arguments, o, 3)
                        else PortAt(arguments, o, 1) && EmailAt(arguments, o, 3))
       case (true, false, true) =>
         index == 4 && (if arguments[1] == "--to" then EmailAt(arguments, o, 1) && arguments[3] == "--shell"
                        else arguments[1] == "--shell" && EmailAt(arguments, o, 2))
       case (false, true, true) =>
         index == 4 && (if arguments[1] == "--port" then arguments[3] == "--shell"
                        else arguments[1] == "--shell" && arguments[2] == "--port")
       case (true, true, true) => index == 6
  }

  predicate EmailAt(arguments: seq<string>, o: ShareOptions, i: nat)
    requires i + 1 < |arguments|
  {
    arguments[i] == "--to" && arguments[i + 1] == o.email
  }

  predicate PortAt(arguments: seq<string>, o: ShareOptions, i: nat)
    requires i + 1 < |arguments|
  {
    arguments[i] == "--port" && Texts.Atoi(arguments[i + 1]) == Some(o.port)
  }

  /** How a share is written, the port in decimal. */
  function WrittenShare(o: ShareOptions): seq<string> {
    [o.biot, "--to", o.email] + if o.shell then ["--shell"] else ["--port", Texts.Itoa(o.port)]
  }

  predicate ValidShare(o: ShareOptions) {
    && !Dashed(o.biot) && !Dashed(o.email) && o.email != ""
    && if o.shell then o.port == 0 else 1 <= o.port <= 65535
  }

  /** A valid share is parsed back from how it is written. */
  lemma ShareRoundTrip(o: ShareOptions, answer: Option<ShareOptions>)
    requires ValidShare(o) && ShareAnswers(WrittenShare(o), answer)
    ensures answer == Some(o)
  {
    WrittenShares(o);
    SharesOnce(WrittenShare(o), o, answer.value);
  }

  lemma WrittenShares(o: ShareOptions)
    requires ValidShare(o)
    ensures SharesAs(WrittenShare(o), o)
  {
    if !o.shell {
      var text := Texts.Itoa(o.port);
      Texts.AtoiItoa(o.port);
      assert Texts.IsDigit(text[0]);
      assert WrittenShare(o) == [o.biot, "--to", o.email, "--port", text];
    } else {
      assert WrittenShare(o) == [o.biot, "--to", o.email, "--shell"];
    }
  }

  /** An argument list shares in at most one way. */
  lemma SharesOnce(arguments: seq<string>, o: ShareOptions, o': ShareOptions)
    requires SharesAs(arguments, o) && SharesAs(arguments, o')
    ensures o == o'
  {
    assert arguments[0] == o.biot == o'.biot;
    assert arguments[1] in {"--to", "--port", "--shell"};
  }

  // ----- biot secret set and biot fetch-credential set -----

  datatype ValueCommand = ValueCommand(reference: string, name: string, stdin: bool)

  const VALUE_FLAGS := ["--stdin"]

  /** A reference and a name, neither looking like a flag, and perhaps `--stdin` once, anywhere. */
  predicate NamesValue(arguments: seq<string>, c: ValueCommand) {
    && !Dashed(c.reference) && !Dashed(c.name)
    && if c.stdin then
         arguments in {["--stdin", c.reference, c.name], [c.reference, "--stdin", c.name], [c.reference, c.name, "--stdin"]}
       else arguments == [c.reference, c.name]
  }

  method ParseValueCommand(arguments: seq<string>) returns (command: Option<ValueCommand>)
    ensures command.Some? ==> NamesValue(arguments, command.value)
    ensures command.None? ==> forall c :: !NamesValue(arguments, c)
  {
    var unknown := RejectUnknown(arguments, VALUE_FLAGS);
    if unknown.Some? {
      return None;
    }
    var positionals, stdin := [], false;
    ghost var flagAt: nat := 0;
    for i := 0 to |arguments|
      invariant forall p <- positionals :: !Dashed(p)
      invariant !stdin ==> arguments[..i] == positionals
      invariant stdin ==> flagAt <= |positionals|
      invariant stdin ==> arguments[..i] == positionals[..flagAt] + ["--stdin"] + positionals[flagAt..]
    {
      assert arguments[..i + 1] == arguments[..i] + [arguments[i]];
      if arguments[i] == "--stdin" {
        if stdin {
          TwoFlags(arguments, flagAt, i);
          return None;
        }
        stdin, flagAt := true, |positionals|;
      } else {
        positionals := positionals + [arguments[i]];
      }
    }
    assert arguments[..|arguments|] == arguments;
    if |positionals| != 2 {
      forall c: ValueCommand
        ensures !NamesValue(arguments, c)
      {
        assert !stdin ==> forall i :: 0 <= i < |arguments| ==> !Dashed(arguments[i]);
        assert stdin ==> Dashed(arguments[flagAt]);
        assert NamesValue(arguments, c) && c.stdin ==>
          |arguments| == 3 && (Dashed(arguments[0]) || Dashed(arguments[1]) || Dashed(arguments[2]));
      }
      return None;
    }
    assert !stdin ==> arguments == [positionals[0], positionals[1]];
    assert stdin && flagAt == 0 ==> arguments == ["--stdin", positionals[0], positionals[1]];
    assert stdin && flagAt == 1 ==> arguments == [positionals[0], "--stdin", positionals[1]];
    assert stdin && flagAt == 2 ==> arguments == [positionals[0], positionals[1], "--stdin"];
    return Some(ValueCommand(positionals[0], positionals[1], stdin));
  }

  lemma TwoFlags(arguments: seq<string>, i: nat, j: nat)
    requires i < j < |arguments| && arguments[i] == arguments[j] == "--stdin"
    ensures forall c :: !NamesValue(arguments, c)
  {
  }

  /** A command is read back from any of its spellings, and from no other command's. */
  lemma NamesOnce(arguments: seq<string>, c: ValueCommand, c': ValueCommand)
    requires NamesValue(arguments, c) && NamesValue(arguments, c')
    ensures c == c'
  {
    assert |arguments| == if c.stdin then 3 else 2;
    if c.stdin {
      assert arguments[0] == "--stdin" || arguments[1] == "--stdin" || arguments[2] == "--stdin";
    }
  }
}
