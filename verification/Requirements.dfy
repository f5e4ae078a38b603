/** When a call satisfies a command requirement, why the command disclosed for a
    requirement does, and which rewritings of a call keep it so. */
module Requirements {
  import opened Common
  import opened Commands

  // ------------------------------------------------------------ global options

  function CommandTail(tokens: seq<string>, sawFormat: bool): Option<seq<string>> {
    if tokens == [] then Some([])
    else
      var t := tokens[0];
      if t == DATA_DIR then (if |tokens| < 2 then None else CommandTail(tokens[2..], sawFormat))
      else if DATA_DIR + "=" <= t then (if After(t) == "" then None else CommandTail(tokens[1..], sawFormat))
      else if t == FORMAT then
        (if sawFormat || |tokens| < 2 || tokens[1] != JSON then None else CommandTail(tokens[2..], true))
      else if FORMAT + "=" <= t then
        (if sawFormat || t != FORMAT + "=" + JSON then None else CommandTail(tokens[1..], true))
      else if t == "--help" || t == "-h" || t == "--version" || "-" <= t then None
      else Some(tokens)
  }

  /** `_cli_command_tail`: the call without its leading global options. */
  method CliCommandTail(tokens: seq<string>) returns (r: Option<seq<string>>)
    ensures r == CommandTail(tokens, false)
  {
    hide After;
    var index, sawFormat := 0, false;
    assert tokens[0..] == tokens;
    while index < |tokens|
      invariant index <= |tokens|
      invariant CommandTail(tokens, false) == CommandTail(tokens[index..], sawFormat)
      decreases |tokens| - index
    {
      var token := tokens[index];
      ghost var rest := tokens[index..];
      assert rest[1..] == tokens[index + 1..];
      assert |rest| > 1 ==> rest[1] == tokens[index + 1] && rest[2..] == tokens[index + 2..];
      if token == DATA_DIR {
        if index + 1 >= |tokens| { return None; }
        index := index + 2;
        continue;
      }
      if DATA_DIR + "=" <= token {
        if After(token) == "" { return None; }
        index := index + 1;
        continue;
      }
      if token == FORMAT {
        if sawFormat || index + 1 >= |tokens| || tokens[index + 1] != JSON { return None; }
        sawFormat, index := true, index + 2;
        continue;
      }
      if FORMAT + "=" <= token {
        if sawFormat || token != FORMAT + "=" + JSON { return None; }
        sawFormat, index := true, index + 1;
        continue;
      }
      if token == "--help" || token == "-h" || token == "--version" { return None; }
      if "-" <= token { return None; }
      return Some(tokens[index..]);
    }
    r := Some([]);
  }

  // What the leading global options are: groups, printed one after the other.

  /** A data directory, not empty when joined to its option, or the JSON format. */
  predicate IsGlobal(g: Group) {
    || (g.Spaced? && g.name == DATA_DIR)
    || (g.Inline? && g.name == DATA_DIR && g.value != "")
    || ((g.Spaced? || g.Inline?) && g.name == FORMAT && g.value == JSON)
  }

  /** Nothing is left, or a token that is no option. */
  predicate StartsCommand(tail: seq<string>) { tail == [] || !("-" <= tail[0]) }

  /** The tokens are global options, the format at most once in all, and then the tail. */
  ghost predicate Precede(globals: seq<Group>, sawFormat: bool, tokens: seq<string>, tail: seq<string>) {
    && (forall k :: 0 <= k < |globals| ==> IsGlobal(globals[k]))
    && |Values(globals, FORMAT)| + Uses(sawFormat) <= 1
    && tokens == Render(globals) + tail && StartsCommand(tail)
  }

  lemma GlobalHead(g: Group, rest: seq<string>, sawFormat: bool)
    requires IsGlobal(g) && !(sawFormat && g.name == FORMAT)
    ensures CommandTail(Tokens(g) + rest, sawFormat) == CommandTail(rest, sawFormat || g.name == FORMAT)
  {
    hide EqualsAt;
    var tokens := Tokens(g) + rest;
    assert DATA_DIR[2] == 'd' && FORMAT[2] == 'f';
    if g.Inline? {
      PartitionJoined(g.name, g.value);
      assert g.name + "=" <= tokens[0];
      assert tokens[0][2] == g.name[2] && |tokens[0]| > |g.name|;
      assert tokens[1..] == rest;
    } else {
      assert tokens[2..] == rest;
    }
  }

  lemma {:induction false} GlobalsAreRemoved(globals: seq<Group>, sawFormat: bool, tail: seq<string>)
    requires Precede(globals, sawFormat, Render(globals) + tail, tail)
    ensures CommandTail(Render(globals) + tail, sawFormat) == Some(tail)
  {
    if globals == [] {
      assert Render(globals) + tail == tail;
      CommandStands(tail, sawFormat);
    } else {
      hide CommandTail;
      var g, more := globals[0], globals[1..];
      assert Given(g, FORMAT) == if g.name == FORMAT then [ValueOf(g)] else [];
      GlobalsAreRemoved(more, sawFormat || g.name == FORMAT, tail);
      GlobalHead(g, Render(more) + tail, sawFormat);
      Regroup(Tokens(g), Render(more), tail);
    }
  }

  lemma PrefixOfPrefix(a: string, b: string, c: string)
    requires a <= b && b <= c
    ensures a <= c
  { }

  /** Every token a global option starts with is an option. */
  lemma GlobalsAreDashed(t: string)
    requires t == DATA_DIR || DATA_DIR + "=" <= t || t == FORMAT || FORMAT + "=" <= t
    ensures "-" <= t
  {
    assert DATA_DIR[0] == '-' && FORMAT[0] == '-';
    if DATA_DIR + "=" <= t { PrefixOfPrefix("-", DATA_DIR + "=", t); }
    if FORMAT + "=" <= t { PrefixOfPrefix("-", FORMAT + "=", t); }
  }

  lemma CommandStands(tail: seq<string>, sawFormat: bool)
    requires StartsCommand(tail)
    ensures CommandTail(tail, sawFormat) == Some(tail)
  {
    if tail != [] {
      var t := tail[0];
      if t == DATA_DIR || DATA_DIR + "=" <= t || t == FORMAT || FORMAT + "=" <= t { GlobalsAreDashed(t); }
      assert t == "--help" || t == "-h" || t == "--version" ==> "-" <= t;
    }
  }

  lemma JoinedSplits(n: string, t: string)
    requires '=' !in n && n + "=" <= t
    ensures t == n + "=" + t[|n| + 1..] && After(t) == t[|n| + 1..]
  {
    hide EqualsAt;
    assert t == n + "=" + t[|n| + 1..];
    PartitionJoined(n, t[|n| + 1..]);
  }

  /** The group at the front of a call that is not at its command yet. */
  lemma FrontIsGlobal(tokens: seq<string>, sawFormat: bool) returns (g: Group)
    requires tokens != [] && "-" <= tokens[0] && CommandTail(tokens, sawFormat).Some?
    ensures IsGlobal(g) && !(sawFormat && g.name == FORMAT)
    ensures |Tokens(g)| <= |tokens| && tokens == Tokens(g) + tokens[|Tokens(g)|..]
  {
    hide After;
    var t := tokens[0];
    if t == DATA_DIR {
      g := Spaced(DATA_DIR, tokens[1]);
    } else if DATA_DIR + "=" <= t {
      g := Inline(DATA_DIR, t[|DATA_DIR| + 1..]);
      JoinedSplits(DATA_DIR, t);
    } else if t == FORMAT {
      g := Spaced(FORMAT, JSON);
    } else {
      g := Inline(FORMAT, JSON);
    }
  }

  lemma {:induction false} RemovedAreGlobals(tokens: seq<string>, sawFormat: bool) returns (globals: seq<Group>)
    requires CommandTail(tokens, sawFormat).Some?
    ensures Precede(globals, sawFormat, tokens, CommandTail(tokens, sawFormat).value)
    decreases |tokens|
  {
    if StartsCommand(tokens) {
      globals := [];
      CommandStands(tokens, sawFormat);
      assert Render([]) + tokens == tokens;
    } else {
      var g := FrontIsGlobal(tokens, sawFormat);
      var rest := tokens[|Tokens(g)|..];
      GlobalHead(g, rest, sawFormat);
      hide CommandTail;
      var more := RemovedAreGlobals(rest, sawFormat || g.name == FORMAT);
      globals := [g] + more;
      assert globals[0] == g && globals[1..] == more;
      assert Given(g, FORMAT) == if g.name == FORMAT then [ValueOf(g)] else [];
      Regroup(Tokens(g), Render(more), CommandTail(rest, sawFormat || g.name == FORMAT).value);
    }
  }

  /** A call has a command tail exactly when it is well-formed global options, the
      format at most once, and then that tail, which starts with no option. */
  lemma CommandTailExactly(tokens: seq<string>, tail: seq<string>)
    ensures CommandTail(tokens, false) == Some(tail) <==> exists globals :: Precede(globals, false, tokens, tail)
  {
    hide CommandTail;
    if CommandTail(tokens, false) == Some(tail) {
      var globals := RemovedAreGlobals(tokens, false);
    }
    if globals :| Precede(globals, false, tokens, tail) {
      GlobalsAreRemoved(globals, false, tail);
    }
  }

  /** Once a command word is reached, what follows it is kept as it is. */
  lemma {:induction false} TailKeepsRest(head: seq<string>, sawFormat: bool, rest: seq<string>)
    requires CommandTail(head, sawFormat).Some? && CommandTail(head, sawFormat) != Some([])
    ensures CommandTail(head + rest, sawFormat) == Some(CommandTail(head, sawFormat).value + rest)
  {
    hide After;
    var t := head[0];
    assert (head + rest)[0] == t;
    assert (head + rest)[1..] == head[1..] + rest;
    if t == DATA_DIR {
      assert (head + rest)[2..] == head[2..] + rest;
      TailKeepsRest(head[2..], sawFormat, rest);
    } else if DATA_DIR + "=" <= t {
      TailKeepsRest(head[1..], sawFormat, rest);
    } else if t == FORMAT {
      assert (head + rest)[1] == head[1] && (head + rest)[2..] == head[2..] + rest;
      TailKeepsRest(head[2..], true, rest);
    } else if FORMAT + "=" <= t {
      TailKeepsRest(head[1..], true, rest);
    }
  }

  // ---------------------------------------------------------- optional options

  /** A declared equivalent option; `Malformed` is any declaration of another shape. */
  datatype Declaration = Declaration(name: string, value: Option<string>) | Malformed

  predicate IsLetter(c: char) { 'a' <= c <= 'z' }
  predicate IsNameChar(c: char) { IsLetter(c) || '0' <= c <= '9' || c == '-' }

  predicate IsOptionName(s: string) {
    && 3 <= |s| <= 66 && s[0] == '-' && s[1] == '-' && IsLetter(s[2])
    && forall k :: 3 <= k < |s| ==> IsNameChar(s[k])
  }

  predicate Declarable(d: Declaration, required: set<string>) {
    && d.Declaration? && IsOptionName(d.name) && d.name != FORMAT && d.name !in required
    && (d.value.Some? ==>
          && d.value.value != "" && |d.value.value| <= MAX_OPTION_VALUE_CHARACTERS
          && !IsOption(d.value.value))
  }

  ghost predicate DeclarationsOk(ds: seq<Declaration>, required: set<string>) {
    && |ds| <= MAX_DECLARATIONS
    && (forall k :: 0 <= k < |ds| ==> Declarable(ds[k], required))
    && (forall j, k :: 0 <= j < k < |ds| ==> ds[j].name != ds[k].name)
  }

  function Declared(ds: seq<Declaration>): Bindings {
    if ds == [] then map[]
    else
      var d, before := ds[|ds| - 1], Declared(ds[..|ds| - 1]);
      if d.Declaration? then before[d.name := [d.value]] else before
  }

  /** What acceptance guarantees of the declared options. */
  ghost predicate Usable(accepted: Bindings, required: set<string>) {
    forall n :: n in accepted ==>
      && n != FORMAT && n !in required && IsOption(n) && '=' !in n && |accepted[n]| == 1
      && (accepted[n][0].Some? ==> accepted[n][0].value != "" && !IsOption(accepted[n][0].value))
  }

  /** Exactly the declared options, each with its one declared value. */
  ghost predicate Holds(accepted: Bindings, ds: seq<Declaration>) {
    && (forall n :: n in accepted ==>
          |accepted[n]| == 1 && exists k :: 0 <= k < |ds| && ds[k] == Declaration(n, accepted[n][0]))
    && (forall k :: 0 <= k < |ds| ==>
          ds[k].Declaration? && ds[k].name in accepted && accepted[ds[k].name] == [ds[k].value])
  }

  lemma {:induction false} DeclaredHolds(ds: seq<Declaration>)
    requires forall k :: 0 <= k < |ds| ==> ds[k].Declaration?
    requires forall j, k :: 0 <= j < k < |ds| ==> ds[j].name != ds[k].name
    ensures Holds(Declared(ds), ds)
  {
    if ds != [] {
      var n := |ds| - 1;
      DeclaredHolds(ds[..n]);
      assert ds == ds[..n] + [ds[n]];
      forall m | m in Declared(ds) ensures exists k :: 0 <= k < |ds| && ds[k] == Declaration(m, Declared(ds)[m][0]) {
        if m == ds[n].name { assert ds[n] == Declaration(m, Declared(ds)[m][0]); }
      }
    }
  }

  /** `_accepted_optional_options`: the declared options, or nothing when any of
      them is ambiguous. */
  method AcceptedOptionalOptions(ds: seq<Declaration>, required: set<string>) returns (r: Option<Bindings>)
    ensures r == if DeclarationsOk(ds, required) then Some(Declared(ds)) else None
    ensures r.Some? ==> Usable(r.value, required)
    ensures r.Some? ==> Holds(r.value, ds)
  {
    hide IsOptionName, IsOption, Holds;
    if |ds| > MAX_DECLARATIONS { return None; }
    var accepted: Bindings := map[];
    for k := 0 to |ds|
      invariant forall j :: 0 <= j < k ==> Declarable(ds[j], required)
      invariant forall j :: 0 <= j < k ==> ds[j].name in accepted
      invariant forall i, j :: 0 <= i < j < k ==> ds[i].name != ds[j].name
      invariant accepted == Declared(ds[..k])
    {
      var d := ds[k];
      if !Declarable(d, required) { return None; }
      if d.name in accepted {
        DeclaredNames(ds[..k], d.name);
        return None;
      }
      assert ds[..k + 1][..k] == ds[..k];
      accepted := accepted[d.name := [d.value]];
    }
    assert ds[..|ds|] == ds;
    UsableDeclared(ds, required);
    DeclaredHolds(ds);
    r := Some(accepted);
  }

  lemma {:induction false} DeclaredNames(ds: seq<Declaration>, n: string)
    requires n in Declared(ds)
    ensures exists k :: 0 <= k < |ds| && ds[k].Declaration? && ds[k].name == n
  {
    var d := ds[|ds| - 1];
    if d.Declaration? && d.name == n {
      assert ds[|ds| - 1].name == n;
    } else {
      DeclaredNames(ds[..|ds| - 1], n);
    }
  }

  lemma {:induction false} UsableDeclared(ds: seq<Declaration>, required: set<string>)
    requires forall k :: 0 <= k < |ds| ==> Declarable(ds[k], required)
    ensures Usable(Declared(ds), required)
  {
    if ds != [] {
      var d := ds[|ds| - 1];
      UsableDeclared(ds[..|ds| - 1], required);
      assert '=' !in d.name;
    }
  }

  // --------------------------------------------------------------- satisfaction

  /** The groups of a call give every required option exactly its required values,
      every declared option its declared value or nothing, and the required
      positionals. */
  ghost predicate Agrees(gs: seq<Group>, required: seq<Group>, accepted: Bindings) {
    && (forall n :: n in Names(required) ==> n != FORMAT && Values(gs, n) == Values(required, n))
    && (forall n :: n in accepted && n in Names(gs) ==> Values(gs, n) == accepted[n])
    && Positionals(gs) == Positionals(required)
  }

  /** The tail of a call is the printing of well-formed groups that agree. */
  ghost predicate Fulfils(tail: seq<string>, required: seq<Group>, accepted: Bindings) {
    exists gs :: WellFormed(gs, Bound(required) + accepted) && Render(gs) == tail && Agrees(gs, required, accepted)
  }

  ghost predicate Satisfies(argv: seq<string>, head: seq<string>, required: seq<Group>, accepted: Bindings) {
    var actual, expected := CommandTail(argv, false), CommandTail(head, false);
    && actual.Some? && expected.Some? && expected.value <= actual.value
    && Fulfils(actual.value[|expected.value|..], required, accepted)
  }

  /** `_arguments_present`. */
  method ArgumentsPresent(
    tail: seq<string>, options: Bindings, positionals: seq<string>, accepted: Bindings, ghost required: seq<Group>)
    returns (b: bool)
    requires options == Bound(required) && positionals == Positionals(required)
    requires Usable(accepted, Names(required))
    ensures b <==> Fulfils(tail, required, accepted)
  {
    hide WellFormed, Render, Positionals, ActualGroups, Values, IsOption;
    var recognized := options + accepted;
    var normalized := NormalizeActualArguments(tail, recognized);
    ghost var read := ActualGroups(tail, recognized, false);
    forall gs
      ensures (WellFormed(gs, recognized) && Render(gs) == tail) <==> read == Some(gs)
    { ReaderIsExact(tail, recognized, gs); }
    if normalized.None? { return false; }
    var (actualOptions, actualPositionals) := normalized.value;
    b := (forall n | n in options :: n in actualOptions && actualOptions[n] == options[n])
         && (forall n | n in accepted :: n !in actualOptions || actualOptions[n] == accepted[n])
         && actualPositionals == positionals;
    ComparisonIsAgreement(read.value, required, accepted);
  }

  lemma ComparisonIsAgreement(gs: seq<Group>, required: seq<Group>, accepted: Bindings)
    requires Usable(accepted, Names(required))
    ensures var o := Options(gs);
            Agrees(gs, required, accepted) <==>
              && (forall n | n in Bound(required) :: n in o && o[n] == Bound(required)[n])
              && (forall n | n in accepted :: n !in o || o[n] == accepted[n])
              && Positionals(gs) == Positionals(required)
  {
    hide Values, Names, Positionals;
    var o, b := Options(gs), Bound(required);
    forall n | n in Names(required)
      ensures (n != FORMAT && Values(gs, n) == Values(required, n)) <==> (n in o && o[n] == b[n])
    {
      NamedHasValues(gs, n);
      NamedHasValues(required, n);
    }
    forall n | n in accepted
      ensures (n in Names(gs) ==> Values(gs, n) == accepted[n]) <==> (n !in o || o[n] == accepted[n])
    { }
    assert b.Keys == Names(required);
  }

  /** `command_satisfies_requirement`, from the effective argument vectors on. */
  method CommandSatisfiesRequirement(argv: seq<string>, head: seq<string>, args: seq<string>, ds: seq<Declaration>)
    returns (b: bool)
    ensures b <==> SatisfiesRequirement(argv, head, args, ds)
  {
    hide CommandTail, RequiredGroups, Fulfils, DeclarationsOk, Usable, Declared;
    var actualTail := CliCommandTail(argv);
    var expectedTail := CliCommandTail(head);
    if actualTail.None? || expectedTail.None? || !(expectedTail.value <= actualTail.value) {
      return false;
    }
    var options, positionals := RequiredArguments(args);
    assert options.Keys == Names(RequiredGroups(args));
    var accepted := AcceptedOptionalOptions(ds, options.Keys);
    if accepted.None? { return false; }
    b := ArgumentsPresent(
      actualTail.value[|expectedTail.value|..], options, positionals, accepted.value, RequiredGroups(args));
  }

  ghost predicate SatisfiesRequirement(argv: seq<string>, head: seq<string>, args: seq<string>, ds: seq<Declaration>) {
    var required := RequiredGroups(args);
    DeclarationsOk(ds, Names(required)) && Satisfies(argv, head, required, Declared(ds))
  }

  // ------------------------------------------------------- the disclosed command

  const FORMAT_GROUP := Spaced(FORMAT, JSON)

  /** `_canonical_required_command`, without its executable. */
  function Disclosed(head: seq<string>, args: seq<string>): seq<string> {
    [DATA_DIR, "steam-agent-data"] + head + args + [FORMAT, JSON]
  }

  /** A required group the reader of actual calls takes as it stands. */
  predicate Fine(g: Group, expected: Bindings) {
    g.Pos?
    || (&& g.name != FORMAT
        && (g.Inline? ==> g.value != "")
        && (g.Flag? ==> g.name in expected && !Takes(expected[g.name])))
  }

  ghost predicate AllFine(gs: seq<Group>, expected: Bindings) {
    forall k :: 0 <= k < |gs| ==> Fine(gs[k], expected)
  }

  /** Valued groups of a list are known to take values. */
  ghost predicate Knows(gs: seq<Group>, expected: Bindings) {
    forall k :: 0 <= k < |gs| && !gs[k].Pos? ==>
      gs[k].name in expected && (!gs[k].Flag? ==> Takes(expected[gs[k].name]))
  }

  /** A second `--format` is refused wherever the first one was. */
  lemma {:induction false} SecondFormatFails(x: seq<string>, expected: Bindings)
    ensures ActualGroups(x + [FORMAT, JSON], expected, true) == None
    decreases |x|
  {
    hide EqualsAt, IsOption;
    var tokens := x + [FORMAT, JSON];
    PartitionJoined(FORMAT, "");
    FormatIsOption();
    var h := ActualHead(tokens, expected);
    if x != [] && h.Some? {
      assert tokens[|Tokens(h.value)|..] == x[|Tokens(h.value)|..] + [FORMAT, JSON];
      if !IsFormat(h.value) {
        SecondFormatFails(x[|Tokens(h.value)|..], expected);
      }
    }
  }

  lemma FormatIsOption()
    ensures IsOption(FORMAT) && FORMAT != JSON && !IsOption(JSON)
  {
    assert JSON[0] == 'j' && FORMAT[0] == '-';
  }

  /** Reading the disclosed arguments as a call gives the required groups back,
      exactly when each of them is fine. */
  lemma {:induction false} DisclosedReads(args: seq<string>, expected: Bindings)
    requires Knows(RequiredGroups(args), expected)
    ensures var required := RequiredGroups(args);
            ActualGroups(args + [FORMAT, JSON], expected, false) ==
            if AllFine(required, expected) then Some(required + [FORMAT_GROUP]) else None
    decreases |args|
  {
    hide ActualHead, RequiredHead, Fine, IsFormat, Tokens;
    var tokens := args + [FORMAT, JSON];
    if args == [] {
      DisclosedEnd(expected);
      assert tokens == [FORMAT, JSON] && RequiredGroups(args) == [];
      assert [] + [FORMAT_GROUP] == [FORMAT_GROUP];
    } else {
      var g := RequiredHead(args);
      var rest := args[|Tokens(g)|..];
      var required, more := RequiredGroups(args), RequiredGroups(rest);
      assert required[0] == g && required[1..] == more;
      DisclosedReads(rest, expected);
      DisclosedHead(args, expected);
      assert tokens[|Tokens(g)|..] == rest + [FORMAT, JSON];
      assert [g] + (more + [FORMAT_GROUP]) == required + [FORMAT_GROUP];
      assert AllFine(required, expected) <==> Fine(g, expected) && AllFine(more, expected);
    }
  }

  lemma DisclosedEnd(expected: Bindings)
    ensures ActualGroups([FORMAT, JSON], expected, false) == Some([FORMAT_GROUP])
  {
    PrintedGroupsReadBack([FORMAT_GROUP], expected, false);
    OneGroup(FORMAT_GROUP, FORMAT);
  }

  lemma DisclosedHead(args: seq<string>, expected: Bindings)
    requires args != [] && Knows(RequiredGroups(args), expected)
    ensures var g, tokens := RequiredHead(args), args + [FORMAT, JSON];
            if Fine(g, expected) then ActualHead(tokens, expected) == Some(g) && !IsFormat(g)
            else ActualGroups(tokens, expected, false) == None
  {
    hide EqualsAt, IsOption;
    var g, tokens := RequiredHead(args), args + [FORMAT, JSON];
    assert RequiredGroups(args)[0] == g;
    PartitionJoins(args[0]);
    FormatIsOption();
    assert tokens[0] == args[0];
    if Fine(g, expected) {
    } else if g.name == FORMAT {
      var h := ActualHead(tokens, expected);
      if h.Some? {
        var rest := args[|Tokens(h.value)|..];
        assert tokens[|Tokens(h.value)|..] == rest + [FORMAT, JSON];
        SecondFormatFails(rest, expected);
      }
    }
  }

  /** What the author of a requirement can check: no `--format`, no empty inline
      value, and no option used both with and without a value. */
  ghost predicate Disclosable(gs: seq<Group>) {
    forall k :: 0 <= k < |gs| && !gs[k].Pos? ==>
      && gs[k].name != FORMAT
      && (gs[k].Inline? ==> gs[k].value != "")
      && (gs[k].Flag? ==> forall j :: 0 <= j < |gs| && IsNamed(gs[j], gs[k].name) ==> gs[j].Flag?)
  }

  lemma {:induction false} TakesIfValued(gs: seq<Group>, n: string)
    ensures Takes(Values(gs, n)) <==> exists j :: 0 <= j < |gs| && IsNamed(gs[j], n) && !gs[j].Flag?
  {
    if gs != [] {
      var rest := gs[1..];
      TakesIfValued(rest, n);
      var first := if IsNamed(gs[0], n) then [ValueOf(gs[0])] else [];
      assert forall v :: v in first + Values(rest, n) <==> v in first || v in Values(rest, n);
      if j :| 0 <= j < |gs| && IsNamed(gs[j], n) && !gs[j].Flag? {
        if j > 0 { assert rest[j - 1] == gs[j]; } else { assert ValueOf(gs[0]) in first; }
      }
      if j :| 0 <= j < |rest| && IsNamed(rest[j], n) && !rest[j].Flag? { assert gs[j + 1] == rest[j]; }
    }
  }

  lemma FineIsDisclosable(gs: seq<Group>, accepted: Bindings)
    requires Usable(accepted, Names(gs))
    ensures Knows(gs, Bound(gs) + accepted)
    ensures AllFine(gs, Bound(gs) + accepted) <==> Disclosable(gs)
  {
    hide Values, Takes, Usable;
    var expected := Bound(gs) + accepted;
    forall k | 0 <= k < |gs| && !gs[k].Pos?
      ensures gs[k].name in expected
      ensures Takes(expected[gs[k].name]) <==> exists j :: 0 <= j < |gs| && IsNamed(gs[j], gs[k].name) && !gs[j].Flag?
    {
      assert gs[k] in gs && gs[k].name in Names(gs);
      assert gs[k].name !in accepted by { UsableIsApart(accepted, Names(gs), gs[k].name); }
      TakesIfValued(gs, gs[k].name);
    }
  }

  lemma UsableIsApart(accepted: Bindings, required: set<string>, n: string)
    requires Usable(accepted, required) && n in required
    ensures n !in accepted
  { }

  lemma FormatAgrees(required: seq<Group>, accepted: Bindings)
    requires Disclosable(required) && Usable(accepted, Names(required))
    ensures Agrees(required + [FORMAT_GROUP], required, accepted)
  {
    hide Values, Positionals;
    PositionalsAppend(required, [FORMAT_GROUP]);
    NamesSnoc(required, FORMAT_GROUP);
    forall n ensures n != FORMAT ==> Values(required + [FORMAT_GROUP], n) == Values(required, n) {
      ValuesAppend(required, [FORMAT_GROUP], n);
      OneGroup(FORMAT_GROUP, n);
    }
    OneGroup(FORMAT_GROUP, "");
  }

  lemma DisclosedFulfils(args: seq<string>, accepted: Bindings)
    requires Usable(accepted, Names(RequiredGroups(args)))
    ensures Fulfils(args + [FORMAT, JSON], RequiredGroups(args), accepted) <==> Disclosable(RequiredGroups(args))
  {
    hide WellFormed, Render, ActualGroups, RequiredGroups, Agrees, Usable, Disclosable;
    var required, tail := RequiredGroups(args), args + [FORMAT, JSON];
    var expected := Bound(required) + accepted;
    FineIsDisclosable(required, accepted);
    DisclosedReads(args, expected);
    if Fulfils(tail, required, accepted) {
      var gs :| WellFormed(gs, expected) && Render(gs) == tail && Agrees(gs, required, accepted);
      ReaderIsExact(tail, expected, gs);
    }
    if Disclosable(required) {
      ReaderIsExact(tail, expected, required + [FORMAT_GROUP]);
      FormatAgrees(required, accepted);
    }
  }

  // Requirements whose command has no command word of its own.

  /** Whether leading global options hold a `--format`. */
  function FormatSeen(tokens: seq<string>): bool {
    if tokens == [] then false
    else if tokens[0] == DATA_DIR then |tokens| > 1 && FormatSeen(tokens[2..])
    else if DATA_DIR + "=" <= tokens[0] then FormatSeen(tokens[1..])
    else true
  }

  lemma {:induction false} GlobalsAreSkipped(head: seq<string>, sawFormat: bool, rest: seq<string>)
    requires CommandTail(head, sawFormat) == Some([])
    ensures CommandTail(head + rest, sawFormat) == CommandTail(rest, sawFormat || FormatSeen(head))
    decreases |head|
  {
    hide After;
    if head == [] {
      assert head + rest == rest;
    } else {
      var t := head[0];
      assert (head + rest)[0] == t;
      assert (head + rest)[1..] == head[1..] + rest;
      if t == DATA_DIR {
        assert (head + rest)[2..] == head[2..] + rest;
        GlobalsAreSkipped(head[2..], sawFormat, rest);
      } else if DATA_DIR + "=" <= t {
        GlobalsAreSkipped(head[1..], sawFormat, rest);
      } else if t == FORMAT {
        assert (head + rest)[1] == head[1] && (head + rest)[2..] == head[2..] + rest;
        GlobalsAreSkipped(head[2..], true, rest);
      } else {
        GlobalsAreSkipped(head[1..], true, rest);
      }
    }
  }

  /** How many tokens spell option `n`. */
  function Spellings(tokens: seq<string>, n: string): nat {
    if tokens == [] then 0
    else (if Before(tokens[0]) == n then 1 else 0) + Spellings(tokens[1..], n)
  }

  lemma {:induction false} SpellingsAppend(a: seq<string>, b: seq<string>, n: string)
    ensures Spellings(a + b, n) == Spellings(a, n) + Spellings(b, n)
  {
    hide Before;
    if a == [] {
      assert a + b == b;
    } else {
      assert (a + b)[1..] == a[1..] + b;
      SpellingsAppend(a[1..], b, n);
    }
  }

  /** A group spells an option as often as it names it. */
  predicate Plain(g: Group) {
    if g.Pos? then !IsOption(g.text)
    else IsOption(g.name) && '=' !in g.name && (g.Spaced? ==> !IsOption(g.value))
  }

  lemma PlainSpells(g: Group, n: string)
    requires Plain(g) && IsOption(n)
    ensures Spellings(Tokens(g), n) == |Given(g, n)|
  {
    hide EqualsAt, IsOption, Spellings;
    if g.Pos? {
      PartitionJoins(g.text);
      OneSpelling(g.text, n);
    } else if g.Inline? {
      PartitionJoined(g.name, g.value);
      OneSpelling(g.name + "=" + g.value, n);
    } else {
      PartitionJoined(g.name, "");
      OneSpelling(g.name, n);
      if g.Spaced? {
        PartitionJoins(g.value);
        OneSpelling(g.value, n);
        SpellingsAppend([g.name], [g.value], n);
        assert [g.name] + [g.value] == Tokens(g);
      }
    }
  }

  lemma OneSpelling(t: string, n: string)
    ensures Spellings([t], n) == if Before(t) == n then 1 else 0
  {
    assert [t][1..] == [];
  }

  lemma {:induction false} SpellingsAreValues(gs: seq<Group>, n: string)
    requires IsOption(n) && forall k :: 0 <= k < |gs| ==> Plain(gs[k])
    ensures Spellings(Render(gs), n) == |Values(gs, n)|
  {
    hide Plain, Tokens, Given, IsOption;
    if gs != [] {
      PlainSpells(gs[0], n);
      SpellingsAppend(Tokens(gs[0]), Render(gs[1..]), n);
      SpellingsAreValues(gs[1..], n);
    }
  }

  lemma {:induction false} RequiredGroupsPrint(args: seq<string>)
    ensures Render(RequiredGroups(args)) == args
    ensures forall k :: 0 <= k < |RequiredGroups(args)| ==> Plain(RequiredGroups(args)[k])
    decreases |args|
  {
    hide EqualsAt;
    if args != [] {
      var g := RequiredHead(args);
      var rest := args[|Tokens(g)|..];
      PartitionJoins(args[0]);
      RequiredGroupsPrint(rest);
      RequiredStep(args);
      assert Render([g] + RequiredGroups(rest)) == Tokens(g) + Render(RequiredGroups(rest)) by {
        RenderAppend([g], RequiredGroups(rest));
        OneGroup(g, "");
      }
      assert args == Tokens(g) + rest;
    }
  }

  /** The tail is a suffix, and a proper one after a leading global option. */
  lemma {:induction false} TailIsSuffix(tokens: seq<string>, sawFormat: bool) returns (d: nat)
    requires CommandTail(tokens, sawFormat).Some?
    ensures d <= |tokens| && CommandTail(tokens, sawFormat).value == tokens[d..]
    ensures tokens != [] && "-" <= tokens[0] ==> d > 0
    decreases |tokens|
  {
    hide After;
    if tokens == [] {
      d := 0;
    } else if tokens[0] == DATA_DIR {
      d := TailIsSuffix(tokens[2..], sawFormat);
      d := d + 2;
    } else if DATA_DIR + "=" <= tokens[0] {
      d := TailIsSuffix(tokens[1..], sawFormat);
      d := d + 1;
    } else if tokens[0] == FORMAT {
      d := TailIsSuffix(tokens[2..], true);
      d := d + 2;
    } else if FORMAT + "=" <= tokens[0] {
      d := TailIsSuffix(tokens[1..], true);
      d := d + 1;
    } else {
      d := 0;
    }
  }

  /** A call cannot agree with an option it spells less often than required. */
  lemma TooFewSpellings(tail: seq<string>, args: seq<string>, accepted: Bindings, n: string)
    requires IsOption(n) && Spellings(tail, n) < Spellings(args, n)
    ensures !Fulfils(tail, RequiredGroups(args), accepted)
  {
    hide Values, Spellings, Render, Positionals, RequiredGroups, IsOption;
    var required := RequiredGroups(args);
    RequiredGroupsPrint(args);
    SpellingsAreValues(required, n);
    NamedHasValues(required, n);
    forall gs | WellFormed(gs, Bound(required) + accepted) && Render(gs) == tail
      ensures !Agrees(gs, required, accepted)
    {
      if n != FORMAT && n in Names(required) {
        forall k | 0 <= k < |gs| ensures Plain(gs[k]) { AcceptableIsPlain(gs[k], Bound(required) + accepted); }
        SpellingsAreValues(gs, n);
      }
    }
  }

  lemma AcceptableIsPlain(g: Group, expected: Bindings)
    requires Acceptable(g, expected)
    ensures Plain(g)
  {
    FormatIsOption();
  }

  /** A leading global option among the arguments is taken from them, so the
      requirement that names it is never met. */
  lemma LeadingOptionIsLost(args: seq<string>, sawFormat: bool, accepted: Bindings)
    requires args != [] && "-" <= args[0]
    ensures var tail := CommandTail(args + [FORMAT, JSON], sawFormat);
            tail.None? || !Fulfils(tail.value, RequiredGroups(args), accepted)
  {
    hide Fulfils, RequiredGroups, Before, After;
    var tokens := args + [FORMAT, JSON];
    var tail := CommandTail(tokens, sawFormat);
    if tail.Some? {
      var d := TailIsSuffix(tokens, sawFormat);
      assert tokens[0] == args[0];
      var n := if args[0] == DATA_DIR || DATA_DIR + "=" <= args[0] then DATA_DIR else FORMAT;
      GlobalName(args[0], n);
      if n == DATA_DIR {
        SuffixSpellsLess(args, d, n);
        TooFewSpellings(tail.value, args, accepted, n);
      } else {
        FormatIsNeverRequired(args, tail.value, accepted);
      }
    }
  }

  lemma GlobalName(t: string, n: string)
    requires t == n || n + "=" <= t
    requires n == DATA_DIR || n == FORMAT
    ensures Before(t) == n && IsOption(n)
  {
    if t == n {
      PartitionJoined(n, "");
    } else {
      assert t == n + "=" + t[|n| + 1..];
      PartitionJoined(n, t[|n| + 1..]);
    }
  }

  lemma SuffixSpellsLess(args: seq<string>, d: nat, n: string)
    requires args != [] && Before(args[0]) == n && n != FORMAT && n == DATA_DIR
    requires 0 < d <= |args| + 2
    ensures Spellings((args + [FORMAT, JSON])[d..], n) < Spellings(args, n)
  {
    hide Before;
    var tokens := args + [FORMAT, JSON];
    SpellingsAppend(args, [FORMAT, JSON], n);
    assert tokens == tokens[..d] + tokens[d..];
    SpellingsAppend(tokens[..d], tokens[d..], n);
    assert tokens[..d][0] == args[0];
    FormatSpells(n);
  }

  lemma FormatSpells(n: string)
    requires n == DATA_DIR
    ensures Spellings([FORMAT, JSON], n) == 0
  {
    hide EqualsAt, Spellings, HasEquals, Before;
    PartitionJoined(FORMAT, "");
    PartitionJoined(JSON, "");
    OneSpelling(FORMAT, n);
    OneSpelling(JSON, n);
    SpellingsAppend([FORMAT], [JSON], n);
    assert [FORMAT] + [JSON] == [FORMAT, JSON];
    assert |FORMAT| != |DATA_DIR| && |JSON| != |DATA_DIR|;
  }

  lemma FormatIsNeverRequired(args: seq<string>, tail: seq<string>, accepted: Bindings)
    requires args != [] && Before(args[0]) == FORMAT
    ensures !Fulfils(tail, RequiredGroups(args), accepted)
  {
    hide Values, Render, Positionals, EqualsAt, WellFormed;
    PartitionJoins(args[0]);
    FormatIsOption();
    var required := RequiredGroups(args);
    var g := RequiredHead(args);
    assert required[0] == g && g in required;
    assert FORMAT in Names(required);
  }

  /** A command word, or else arguments that begin with one (or are absent). */
  predicate HasCommandWord(head: seq<string>, args: seq<string>) {
    CommandTail(head, false) == Some([]) ==> if args == [] then !FormatSeen(head) else !("-" <= args[0])
  }

  /** The disclosed command satisfies its requirement exactly when the requirement
      is disclosable, its declarations are in order and its command is a command. */
  lemma DisclosedSatisfiesExactly(head: seq<string>, args: seq<string>, ds: seq<Declaration>)
    ensures SatisfiesRequirement(Disclosed(head, args), head, args, ds) <==>
              && CommandTail(head, false).Some? && HasCommandWord(head, args)
              && DeclarationsOk(ds, Names(RequiredGroups(args)))
              && Disclosable(RequiredGroups(args))
  {
    hide RequiredGroups, Fulfils, Disclosable, Declared, Usable, CommandTail, DeclarationsOk, FormatSeen;
    if CommandTail(head, false).Some? && DeclarationsOk(ds, Names(RequiredGroups(args))) {
      var rest, argv := args + [FORMAT, JSON], Disclosed(head, args);
      AcceptedAreUsable(ds, Names(RequiredGroups(args)));
      DisclosedFulfils(args, Declared(ds));
      assert argv == [DATA_DIR, "steam-agent-data"] + head + rest;
      if CommandTail(head, false) != Some([]) {
        PrefixedTail(head, rest);
      } else {
        assert argv[2..] == head + rest;
        SkipDataDir(argv);
        GlobalsAreSkipped(head, false, rest);
        BareCommand(args, FormatSeen(head), Declared(ds));
      }
    }
  }

  /** A concrete one that fails: an option with an empty inline value is required,
      but no call may spell it. */
  lemma EmptyInlineIsNotDisclosable(head: seq<string>, ds: seq<Declaration>)
    ensures !SatisfiesRequirement(Disclosed(head, ["--all="]), head, ["--all="], ds)
  {
    hide SatisfiesRequirement, CommandTail, DeclarationsOk, HasCommandWord;
    PartitionJoined("--all", "");
    assert "--all" + "=" + "" == "--all=";
    var required := RequiredGroups(["--all="]);
    assert required[0] == Inline("--all", "");
    DisclosedSatisfiesExactly(head, ["--all="], ds);
  }

  /** A requirement without a command word. */
  lemma BareCommand(args: seq<string>, sawFormat: bool, accepted: Bindings)
    requires Usable(accepted, Names(RequiredGroups(args)))
    ensures var tail := CommandTail(args + [FORMAT, JSON], sawFormat);
            (tail.Some? && Fulfils(tail.value[0..], RequiredGroups(args), accepted)) <==>
              (if args == [] then !sawFormat else !("-" <= args[0])) && Disclosable(RequiredGroups(args))
  {
    hide Fulfils, Disclosable, Usable;
    var tokens := args + [FORMAT, JSON];
    var tail := CommandTail(tokens, sawFormat);
    assert tail.Some? ==> tail.value[0..] == tail.value;
    if args == [] {
      assert tokens == [FORMAT, JSON];
      NoArguments(accepted);
      assert tokens[2..] == [];
    } else if "-" <= args[0] {
      LeadingOptionIsLost(args, sawFormat, accepted);
    } else {
      assert tokens[0] == args[0];
      PlainWord(tokens, sawFormat);
      DisclosedFulfils(args, accepted);
    }
  }

  lemma PlainWord(tokens: seq<string>, sawFormat: bool)
    requires tokens != [] && !("-" <= tokens[0])
    ensures CommandTail(tokens, sawFormat) == Some(tokens)
  {
    hide After;
    var t := tokens[0];
    if t != "" { assert t[0] != '-'; }
    assert DATA_DIR[0] == '-' && FORMAT[0] == '-';
    assert (DATA_DIR + "=")[0] == '-' && (FORMAT + "=")[0] == '-';
  }

  lemma NoArguments(accepted: Bindings)
    ensures Fulfils([], RequiredGroups([]), accepted) && Disclosable(RequiredGroups([]))
  {
    var none: seq<Group> := [];
    assert WellFormed(none, Bound(none) + accepted) && Render(none) == [] && Agrees(none, none, accepted);
  }

  /** A call to the disclosed data directory keeps its command and arguments. */
  lemma PrefixedTail(head: seq<string>, rest: seq<string>)
    requires CommandTail(head, false).Some? && CommandTail(head, false) != Some([])
    ensures var t := CommandTail(head, false).value;
            CommandTail([DATA_DIR, "steam-agent-data"] + head + rest, false) == Some(t + rest)
            && t <= t + rest && (t + rest)[|t|..] == rest
  {
    hide CommandTail;
    var argv := [DATA_DIR, "steam-agent-data"] + head + rest;
    assert argv[2..] == head + rest;
    SkipDataDir(argv);
    TailKeepsRest(head, false, rest);
  }

  lemma SkipDataDir(argv: seq<string>)
    requires |argv| >= 2 && argv[0] == DATA_DIR
    ensures CommandTail(argv, false) == CommandTail(argv[2..], false)
  { }

  // ------------------------------------------------------------------ rewriting

  /** One rewriting of a call: swapping neighbours, spelling a value the other way,
      or adding a declared option. */
  datatype Move = Swap(at: nat) | Respell(at: nat) | Add(at: nat, group: Group)

  predicate Allowed(m: Move, gs: seq<Group>, accepted: Bindings) {
    match m
    case Swap(k) =>
      k + 1 < |gs| && !(gs[k].Pos? && gs[k + 1].Pos?)
      && (gs[k].Pos? || gs[k + 1].Pos? || gs[k].name != gs[k + 1].name)
    case Respell(k) =>
      k < |gs| && ((gs[k].Spaced? && gs[k].value != "") || (gs[k].Inline? && !IsOption(gs[k].value)))
    case Add(k, g) =>
      k <= |gs| && !g.Pos? && g.name in accepted && g.name !in Names(gs) && accepted[g.name] == [ValueOf(g)]
  }

  function Respelled(g: Group): Group
    requires g.Spaced? || g.Inline?
  {
    if g.Spaced? then Inline(g.name, g.value) else Spaced(g.name, g.value)
  }

  function ApplyMove(m: Move, gs: seq<Group>, accepted: Bindings): seq<Group>
    requires Allowed(m, gs, accepted)
  {
    match m
    case Swap(k) => gs[..k] + [gs[k + 1], gs[k]] + gs[k + 2..]
    case Respell(k) => gs[..k] + [Respelled(gs[k])] + gs[k + 1..]
    case Add(k, g) => gs[..k] + [g] + gs[k..]
  }

  /** Well formed and in agreement with the requirement. */
  ghost predicate Fitting(gs: seq<Group>, required: seq<Group>, accepted: Bindings) {
    WellFormed(gs, Bound(required) + accepted) && Agrees(gs, required, accepted)
  }

  /** Replacing a stretch of groups by one with the same values and positionals. */
  lemma ReplaceStretch(a: seq<Group>, x: seq<Group>, y: seq<Group>, b: seq<Group>, n: string)
    requires Values(x, n) == Values(y, n)
    ensures Values(a + x + b, n) == Values(a + y + b, n)
    ensures Positionals(x) == Positionals(y) ==> Positionals(a + x + b) == Positionals(a + y + b)
  {
    hide Values, Positionals;
    ValuesAppend(a + x, b, n);
    ValuesAppend(a, x, n);
    ValuesAppend(a + y, b, n);
    ValuesAppend(a, y, n);
    PositionalsAppend(a + x, b);
    PositionalsAppend(a, x);
    PositionalsAppend(a + y, b);
    PositionalsAppend(a, y);
  }

  lemma PairValues(g: Group, h: Group, n: string)
    ensures Values([g, h], n) == Values([g], n) + Values([h], n)
    ensures Positionals([g, h]) == Positionals([g]) + Positionals([h])
  {
    assert [g, h] == [g] + [h];
    ValuesAppend([g], [h], n);
    PositionalsAppend([g], [h]);
  }

  /** Swapping and respelling change no option's values and no positional. */
  lemma MoveKeepsValues(m: Move, gs: seq<Group>, accepted: Bindings, n: string)
    requires Allowed(m, gs, accepted) && (m.Add? ==> n != m.group.name)
    ensures Values(ApplyMove(m, gs, accepted), n) == Values(gs, n)
    ensures Positionals(ApplyMove(m, gs, accepted)) == Positionals(gs)
  {
    hide Values, Positionals, IsOption;
    match m {
      case Swap(k) => {
        var g, h := gs[k], gs[k + 1];
        PairValues(g, h, n); PairValues(h, g, n);
        OneGroup(g, n); OneGroup(h, n);
        assert gs == gs[..k] + [g, h] + gs[k + 2..];
        ReplaceStretch(gs[..k], [g, h], [h, g], gs[k + 2..], n);
      }
      case Respell(k) => {
        OneGroup(gs[k], n); OneGroup(Respelled(gs[k]), n);
        assert gs == gs[..k] + [gs[k]] + gs[k + 1..];
        ReplaceStretch(gs[..k], [gs[k]], [Respelled(gs[k])], gs[k + 1..], n);
      }
      case Add(k, g) => {
        OneGroup(g, n);
        assert Values([], n) == [] && Positionals([]) == [] by { EmptyGroups(n); }
        assert gs == gs[..k] + [] + gs[k..];
        ReplaceStretch(gs[..k], [], [g], gs[k..], n);
      }
    }
  }

  lemma EmptyGroups(n: string)
    ensures Values([], n) == [] && Positionals([]) == []
  { }

  /** A declared option, once added, holds exactly its declared value. */
  lemma AddedValues(m: Move, gs: seq<Group>, accepted: Bindings)
    requires m.Add? && Allowed(m, gs, accepted)
    ensures Values(ApplyMove(m, gs, accepted), m.group.name) == accepted[m.group.name]
    ensures Positionals(ApplyMove(m, gs, accepted)) == Positionals(gs)
  {
    hide Values, Positionals, Names;
    var k, g := m.at, m.group;
    NamedHasValues(gs, g.name);
    assert gs == gs[..k] + gs[k..];
    Inserted(gs[..k], g, gs[k..], g.name);
    OneGroup(g, g.name);
  }

  lemma Inserted(a: seq<Group>, g: Group, b: seq<Group>, n: string)
    requires Values(a + b, n) == [] && !g.Pos?
    ensures Values(a + [g] + b, n) == Values([g], n)
    ensures Positionals(a + [g] + b) == Positionals(a + b)
  {
    hide Values, Positionals;
    ValuesAppend(a, b, n);
    ValuesAppend(a + [g], b, n);
    ValuesAppend(a, [g], n);
    PositionalsAppend(a, b);
    PositionalsAppend(a + [g], b);
    PositionalsAppend(a, [g]);
    OneGroup(g, n);
  }

  lemma AddedIsAcceptable(g: Group, required: seq<Group>, accepted: Bindings)
    requires Usable(accepted, Names(required)) && !g.Pos? && g.name in accepted && accepted[g.name] == [ValueOf(g)]
    ensures Acceptable(g, Bound(required) + accepted)
  {
    hide IsOption;
    assert (Bound(required) + accepted)[g.name] == [ValueOf(g)];
    assert ValueOf(g) in [ValueOf(g)];
  }

  lemma MoveKeepsAcceptable(m: Move, gs: seq<Group>, required: seq<Group>, accepted: Bindings)
    requires Usable(accepted, Names(required)) && Allowed(m, gs, accepted)
    requires forall k :: 0 <= k < |gs| ==> Acceptable(gs[k], Bound(required) + accepted)
    ensures var hs := ApplyMove(m, gs, accepted);
            forall k :: 0 <= k < |hs| ==> Acceptable(hs[k], Bound(required) + accepted)
  {
    hide IsOption, Usable, Takes, Bound, Names;
    if m.Add? { AddedIsAcceptable(m.group, required, accepted); }
    if m.Respell? {
      RespelledAcceptable(gs[m.at], Bound(required) + accepted);
    }
  }

  lemma RespelledAcceptable(g: Group, expected: Bindings)
    requires Acceptable(g, expected) && ((g.Spaced? && g.value != "") || (g.Inline? && !IsOption(g.value)))
    ensures Acceptable(Respelled(g), expected)
  { }

  /** Every allowed rewriting of a fitting call fits. */
  lemma MoveKeepsFitting(m: Move, gs: seq<Group>, required: seq<Group>, accepted: Bindings)
    requires Usable(accepted, Names(required)) && Fitting(gs, required, accepted) && Allowed(m, gs, accepted)
    ensures Fitting(ApplyMove(m, gs, accepted), required, accepted)
  {
    hide Values, Positionals, Acceptable, ApplyMove, Allowed, IsOption, Names;
    var hs := ApplyMove(m, gs, accepted);
    MoveKeepsAcceptable(m, gs, required, accepted);
    forall n
      ensures if m.Add? && IsNamed(m.group, n) then n in accepted && Values(hs, n) == accepted[n]
              else Values(hs, n) == Values(gs, n)
    {
      MoveValues(m, gs, accepted, n);
    }
    MovePositionals(m, gs, accepted);
    forall n ensures (n in Names(hs) <==> Values(hs, n) != []) && (n in Names(gs) <==> Values(gs, n) != []) {
      NamedHasValues(hs, n);
      NamedHasValues(gs, n);
    }
  }

  lemma MoveValues(m: Move, gs: seq<Group>, accepted: Bindings, n: string)
    requires Allowed(m, gs, accepted)
    ensures var hs := ApplyMove(m, gs, accepted);
            if m.Add? && IsNamed(m.group, n) then n in accepted && Values(hs, n) == accepted[n]
            else Values(hs, n) == Values(gs, n)
  {
    hide Values, Positionals;
    if m.Add? && IsNamed(m.group, n) { AddedValues(m, gs, accepted); } else { MoveKeepsValues(m, gs, accepted, n); }
  }

  lemma MovePositionals(m: Move, gs: seq<Group>, accepted: Bindings)
    requires Allowed(m, gs, accepted)
    ensures Positionals(ApplyMove(m, gs, accepted)) == Positionals(gs)
  {
    hide Values, Positionals;
    if m.Add? { AddedValues(m, gs, accepted); } else { MoveKeepsValues(m, gs, accepted, ""); }
  }

  ghost predicate AllAllowed(ms: seq<Move>, gs: seq<Group>, accepted: Bindings) {
    ms == [] || (Allowed(ms[0], gs, accepted) && AllAllowed(ms[1..], ApplyMove(ms[0], gs, accepted), accepted))
  }

  ghost function ApplyMoves(ms: seq<Move>, gs: seq<Group>, accepted: Bindings): seq<Group>
    requires AllAllowed(ms, gs, accepted)
  {
    if ms == [] then gs else ApplyMoves(ms[1..], ApplyMove(ms[0], gs, accepted), accepted)
  }

  lemma {:induction false} MovesKeepFitting(ms: seq<Move>, gs: seq<Group>, required: seq<Group>, accepted: Bindings)
    requires Usable(accepted, Names(required)) && Fitting(gs, required, accepted) && AllAllowed(ms, gs, accepted)
    ensures Fitting(ApplyMoves(ms, gs, accepted), required, accepted)
    decreases |ms|
  {
    hide Usable, Fitting, Allowed, ApplyMove;
    if ms != [] {
      MoveKeepsFitting(ms[0], gs, required, accepted);
      MovesKeepFitting(ms[1..], ApplyMove(ms[0], gs, accepted), required, accepted);
    }
  }

  /** However a disclosed command is rewritten, it still satisfies its requirement. */
  lemma RewrittenCommandSatisfies(head: seq<string>, args: seq<string>, ds: seq<Declaration>, ms: seq<Move>)
    requires CommandTail(head, false) != Some([]) && SatisfiesRequirement(Disclosed(head, args), head, args, ds)
    requires AllAllowed(ms, RequiredGroups(args) + [FORMAT_GROUP], Declared(ds))
    ensures Render(RequiredGroups(args) + [FORMAT_GROUP]) == args + [FORMAT, JSON]
    ensures SatisfiesRequirement(
              [DATA_DIR, "steam-agent-data"] + head
              + Render(ApplyMoves(ms, RequiredGroups(args) + [FORMAT_GROUP], Declared(ds))), head, args, ds)
  {
    hide RequiredGroups, Render, Agrees, WellFormed, Disclosable, Declared, Usable, DeclarationsOk;
    hide ActualGroups, CommandTail;
    var required, accepted := RequiredGroups(args), Declared(ds);
    var start := required + [FORMAT_GROUP];
    DisclosedSatisfiesExactly(head, args, ds);
    AcceptedAreUsable(ds, Names(required));
    FineIsDisclosable(required, accepted);
    DisclosedReads(args, Bound(required) + accepted);
    ReaderIsExact(args + [FORMAT, JSON], Bound(required) + accepted, start);
    FormatAgrees(required, accepted);
    MovesKeepFitting(ms, start, required, accepted);
    PrefixedTail(head, Render(ApplyMoves(ms, start, accepted)));
  }

  lemma AcceptedAreUsable(ds: seq<Declaration>, required: set<string>)
    requires DeclarationsOk(ds, required)
    ensures Usable(Declared(ds), required)
  {
    UsableDeclared(ds, required);
  }
}
