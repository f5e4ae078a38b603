/** Required commands at token level: how a required argument list and an actual
    call are read into groups, when a call satisfies a requirement, and why the
    command disclosed for a requirement does. */
module Commands {
  import opened Common

  const FORMAT := "--format"
  const JSON := "json"
  const DATA_DIR := "--data-dir"
  const MAX_DECLARATIONS: nat := 16
  const MAX_OPTION_VALUE_CHARACTERS: nat := 256

  // ------------------------------------------------------------------- tokens

  predicate IsOption(t: string) { "--" <= t }

  function EqualsAt(t: string): (k: nat)
    ensures k <= |t|
  {
    if t == "" || t[0] == '=' then 0 else 1 + EqualsAt(t[1..])
  }

  predicate HasEquals(t: string) { EqualsAt(t) < |t| }
  function Before(t: string): string { t[..EqualsAt(t)] }
  function After(t: string): string { if HasEquals(t) then t[EqualsAt(t) + 1..] else "" }

  lemma {:induction false} EqualsAtFirst(n: string, rest: string)
    requires '=' !in n && (rest != "" ==> rest[0] == '=')
    ensures EqualsAt(n + rest) == |n|
  {
    if n != "" {
      assert (n + rest)[1..] == n[1..] + rest;
      EqualsAtFirst(n[1..], rest);
    } else {
      assert n + rest == rest;
    }
  }

  /** Joining a name and a value with '=' is undone by splitting at the first one. */
  lemma PartitionJoined(n: string, v: string)
    requires '=' !in n
    ensures HasEquals(n + "=" + v) && Before(n + "=" + v) == n && After(n + "=" + v) == v
    ensures !HasEquals(n) && Before(n) == n
  {
    EqualsAtFirst(n, "=" + v);
    assert n + "=" + v == n + ("=" + v);
    EqualsAtFirst(n, "");
    assert n + "" == n;
  }

  lemma {:induction false} NoEqualsBefore(t: string)
    ensures '=' !in Before(t) && (HasEquals(t) ==> t[EqualsAt(t)] == '=')
  {
    if t != "" && t[0] != '=' {
      NoEqualsBefore(t[1..]);
      assert Before(t) == [t[0]] + Before(t[1..]);
    }
  }

  lemma PartitionJoins(t: string)
    ensures '=' !in Before(t)
    ensures HasEquals(t) ==> t == Before(t) + "=" + After(t)
    ensures !HasEquals(t) ==> t == Before(t)
    ensures IsOption(Before(t)) <==> IsOption(t)
  {
    NoEqualsBefore(t);
    if IsOption(t) {
      assert t[0] == '-' && t[1] == '-' && t[1..][0] == '-';
      assert EqualsAt(t) >= 2;
    }
  }

  // ------------------------------------------------------------------- groups

  /** One unit of an argument list as spelled on the command line. */
  datatype Group =
    | Pos(text: string)
    | Flag(name: string)
    | Spaced(name: string, value: string)
    | Inline(name: string, value: string)

  type Bindings = map<string, seq<Option<string>>>

  function Tokens(g: Group): (ts: seq<string>)
    ensures |ts| == if g.Spaced? then 2 else 1
  {
    match g
    case Pos(t) => [t]
    case Flag(n) => [n]
    case Spaced(n, v) => [n, v]
    case Inline(n, v) => [n + "=" + v]
  }

  function Render(gs: seq<Group>): seq<string> {
    if gs == [] then [] else Tokens(gs[0]) + Render(gs[1..])
  }

  function ValueOf(g: Group): Option<string> {
    if g.Spaced? || g.Inline? then Some(g.value) else None
  }

  predicate IsNamed(g: Group, n: string) { !g.Pos? && g.name == n }

  function Given(g: Group, n: string): seq<Option<string>> {
    if IsNamed(g, n) then [ValueOf(g)] else []
  }

  function Text(g: Group): seq<string> { if g.Pos? then [g.text] else [] }

  /** The values an option is given, in order. */
  function Values(gs: seq<Group>, n: string): seq<Option<string>> {
    if gs == [] then []
    else Given(gs[0], n) + Values(gs[1..], n)
  }

  function Positionals(gs: seq<Group>): seq<string> {
    if gs == [] then []
    else Text(gs[0]) + Positionals(gs[1..])
  }

  function Names(gs: seq<Group>): set<string> {
    set g | g in gs && !g.Pos? :: g.name
  }

  function Bound(gs: seq<Group>): Bindings {
    map n | n in Names(gs) :: Values(gs, n)
  }

  function Bind(b: Bindings, n: string, v: Option<string>): Bindings {
    b[n := (if n in b then b[n] else []) + [v]]
  }

  predicate Takes(values: seq<Option<string>>) { exists v :: v in values && v.Some? }

  lemma {:induction false} RenderAppend(a: seq<Group>, b: seq<Group>)
    ensures Render(a + b) == Render(a) + Render(b)
  {
    if a == [] {
      assert a + b == b;
    } else {
      assert (a + b)[1..] == a[1..] + b;
      RenderAppend(a[1..], b);
      Regroup(Tokens(a[0]), Render(a[1..]), Render(b));
    }
  }

  lemma {:induction false} ValuesAppend(a: seq<Group>, b: seq<Group>, n: string)
    ensures Values(a + b, n) == Values(a, n) + Values(b, n)
  {
    hide Given;
    if a == [] {
      assert a + b == b;
    } else {
      assert (a + b)[1..] == a[1..] + b;
      ValuesAppend(a[1..], b, n);
      Regroup(Given(a[0], n), Values(a[1..], n), Values(b, n));
    }
  }

  lemma {:induction false} PositionalsAppend(a: seq<Group>, b: seq<Group>)
    ensures Positionals(a + b) == Positionals(a) + Positionals(b)
  {
    hide Text;
    if a == [] {
      assert a + b == b;
    } else {
      assert (a + b)[1..] == a[1..] + b;
      PositionalsAppend(a[1..], b);
      Regroup(Text(a[0]), Positionals(a[1..]), Positionals(b));
    }
  }

  lemma {:induction false} NamedHasValues(gs: seq<Group>, n: string)
    ensures n in Names(gs) <==> Values(gs, n) != []
  {
    if gs != [] {
      NamedHasValues(gs[1..], n);
      assert forall g :: g in gs <==> g == gs[0] || g in gs[1..];
    }
  }

  lemma NamesSnoc(gs: seq<Group>, g: Group)
    ensures Names(gs + [g]) == Names(gs) + (if g.Pos? then {} else {g.name})
  {
    assert forall h :: h in gs + [g] <==> h in gs || h == g;
  }

  lemma OneGroup(g: Group, n: string)
    ensures Values([g], n) == if IsNamed(g, n) then [ValueOf(g)] else []
    ensures Positionals([g]) == if g.Pos? then [g.text] else []
    ensures Render([g]) == Tokens(g)
  {
    assert [g][1..] == [];
    assert Render([g]) == Tokens(g) + [];
  }

  /** Reading one more group appends to the option's list. */
  lemma BoundSnoc(gs: seq<Group>, g: Group)
    ensures Bound(gs + [g]) == if g.Pos? then Bound(gs) else Bind(Bound(gs), g.name, ValueOf(g))
    ensures Positionals(gs + [g]) == Positionals(gs) + if g.Pos? then [g.text] else []
  {
    hide Values, Names, Positionals;
    NamesSnoc(gs, g);
    PositionalsAppend(gs, [g]);
    OneGroup(g, "");
    forall n
      ensures Values(gs + [g], n) == Values(gs, n) + if IsNamed(g, n) then [ValueOf(g)] else []
      ensures n in Names(gs) <==> Values(gs, n) != []
    {
      ValuesAppend(gs, [g], n);
      OneGroup(g, n);
      NamedHasValues(gs, n);
    }
    var grown := Bound(gs + [g]);
    var bound := if g.Pos? then Bound(gs) else Bind(Bound(gs), g.name, ValueOf(g));
    assert grown.Keys == bound.Keys;
    forall n | n in grown ensures grown[n] == bound[n] {
      assert Values(gs + [g], n) == Values(gs, n) + Given(g, n);
    }
  }

  // --------------------------------------------------------- required arguments

  /** How a requirement's own argument list is read at its front. */
  function RequiredHead(args: seq<string>): (g: Group)
    requires args != []
    ensures |Tokens(g)| <= |args|
  {
    var t := args[0];
    if !IsOption(t) then Pos(t)
    else if HasEquals(t) then Inline(Before(t), After(t))
    else if |args| > 1 && !IsOption(args[1]) then Spaced(t, args[1])
    else Flag(t)
  }

  function RequiredGroups(args: seq<string>): seq<Group> {
    if args == [] then []
    else var g := RequiredHead(args); [g] + RequiredGroups(args[|Tokens(g)|..])
  }

  /** `_required_arguments`. */
  method RequiredArguments(args: seq<string>) returns (options: Bindings, positionals: seq<string>)
    ensures options == Bound(RequiredGroups(args))
    ensures positionals == Positionals(RequiredGroups(args))
  {
    hide Values, Names, Bound, Positionals, EqualsAt, Bind;
    options, positionals := map[], [];
    var index := 0;
    ghost var done: seq<Group> := [];
    BoundEmpty();
    assert args[0..] == args;
    while index < |args|
      invariant index <= |args|
      invariant done + RequiredGroups(args[index..]) == RequiredGroups(args)
      invariant options == Bound(done) && positionals == Positionals(done)
    {
      var argument := args[index];
      ghost var rest := args[index..];
      ghost var g := RequiredHead(rest);
      BoundSnoc(done, g);
      RequiredStep(rest);
      hide RequiredGroups;
      Regroup(done, [g], RequiredGroups(rest[|Tokens(g)|..]));
      PartitionJoins(argument);
      if IsOption(argument) {
        var option := Before(argument);
        if HasEquals(argument) {
          options := Bind(options, option, Some(After(argument)));
        } else if index + 1 < |args| && !IsOption(args[index + 1]) {
          options := Bind(options, option, Some(args[index + 1]));
          index := index + 1;
        } else {
          options := Bind(options, option, None);
        }
      } else {
        positionals := positionals + [argument];
      }
      index := index + 1;
      assert rest[|Tokens(g)|..] == args[index..];
      done := done + [g];
    }
    assert args[index..] == [];
    assert done + [] == done;
  }

  lemma RequiredStep(args: seq<string>)
    requires args != []
    ensures var g := RequiredHead(args); RequiredGroups(args) == [g] + RequiredGroups(args[|Tokens(g)|..])
  { }

  lemma BoundEmpty()
    ensures Bound([]) == map[] && Positionals([]) == []
  { }

  // ----------------------------------------------------------- actual arguments

  predicate IsFormat(g: Group) { IsNamed(g, FORMAT) }

  /** A group an actual call may use, given the options it is expected to know. */
  predicate Acceptable(g: Group, expected: Bindings) {
    if g.Pos? then !IsOption(g.text)
    else
      && IsOption(g.name) && '=' !in g.name
      && if g.name == FORMAT then ValueOf(g) == Some(JSON)
         else
           && g.name in expected
           && (g.Flag? <==> !Takes(expected[g.name]))
           && (g.Inline? ==> g.value != "")
           && (g.Spaced? ==> !IsOption(g.value))
  }

  /** Acceptable groups, with at most one `--format`. */
  ghost predicate WellFormed(gs: seq<Group>, expected: Bindings) {
    && (forall k :: 0 <= k < |gs| ==> Acceptable(gs[k], expected))
    && |Values(gs, FORMAT)| <= 1
  }

  function ActualHead(tokens: seq<string>, expected: Bindings): (r: Option<Group>)
    requires tokens != []
    ensures r.Some? ==> |Tokens(r.value)| <= |tokens|
  {
    var t := tokens[0];
    var option := Before(t);
    if option == FORMAT then
      if HasEquals(t) then (if After(t) == JSON then Some(Inline(FORMAT, JSON)) else None)
      else if |tokens| > 1 && tokens[1] == JSON then Some(Spaced(FORMAT, JSON))
      else None
    else if IsOption(option) then
      if option !in expected then None
      else if HasEquals(t) then
        (if Takes(expected[option]) && After(t) != "" then Some(Inline(option, After(t))) else None)
      else if Takes(expected[option]) then
        (if |tokens| > 1 && !IsOption(tokens[1]) then Some(Spaced(option, tokens[1])) else None)
      else Some(Flag(option))
    else Some(Pos(t))
  }

  function ActualGroups(tokens: seq<string>, expected: Bindings, sawFormat: bool): Option<seq<Group>> {
    if tokens == [] then Some([])
    else
      var h := ActualHead(tokens, expected);
      if h.None? || (sawFormat && IsFormat(h.value)) then None
      else
        var rest := ActualGroups(tokens[|Tokens(h.value)|..], expected, sawFormat || IsFormat(h.value));
        if rest.None? then None else Some([h.value] + rest.value)
  }

  lemma HeadReadsBack(g: Group, rest: seq<string>, expected: Bindings)
    requires Acceptable(g, expected)
    ensures ActualHead(Tokens(g) + rest, expected) == Some(g)
  {
    hide EqualsAt;
    if g.Pos? {
      PartitionJoins(g.text);
    } else if g.Inline? {
      PartitionJoined(g.name, g.value);
    } else {
      PartitionJoined(g.name, "");
    }
  }

  lemma HeadIsAcceptable(tokens: seq<string>, expected: Bindings)
    requires tokens != [] && ActualHead(tokens, expected).Some?
    ensures var g := ActualHead(tokens, expected).value;
            Acceptable(g, expected) && tokens == Tokens(g) + tokens[|Tokens(g)|..]
  {
    hide EqualsAt;
    PartitionJoins(tokens[0]);
  }

  function Uses(sawFormat: bool): nat { if sawFormat then 1 else 0 }

  /** Printing and reading back: every well-formed list of groups is recovered. */
  lemma {:induction false} PrintedGroupsReadBack(gs: seq<Group>, expected: Bindings, sawFormat: bool)
    requires forall k :: 0 <= k < |gs| ==> Acceptable(gs[k], expected)
    requires |Values(gs, FORMAT)| + Uses(sawFormat) <= 1
    ensures ActualGroups(Render(gs), expected, sawFormat) == Some(gs)
  {
    hide ActualHead, Acceptable;
    if gs != [] {
      var g := gs[0];
      HeadReadsBack(g, Render(gs[1..]), expected);
      assert Render(gs)[|Tokens(g)|..] == Render(gs[1..]);
      PrintedGroupsReadBack(gs[1..], expected, sawFormat || IsFormat(g));
      assert gs == [g] + gs[1..];
    }
  }

  /** Reading and printing back: whatever is read is well formed and prints to the
      very tokens. */
  lemma {:induction false} ReadGroupsPrintBack(tokens: seq<string>, expected: Bindings, sawFormat: bool)
    requires ActualGroups(tokens, expected, sawFormat).Some?
    ensures var gs := ActualGroups(tokens, expected, sawFormat).value;
            && Render(gs) == tokens
            && (forall k :: 0 <= k < |gs| ==> Acceptable(gs[k], expected))
            && |Values(gs, FORMAT)| + Uses(sawFormat) <= 1
  {
    hide ActualHead, Acceptable;
    if tokens != [] {
      var g := ActualHead(tokens, expected).value;
      HeadIsAcceptable(tokens, expected);
      var rest := tokens[|Tokens(g)|..];
      ReadGroupsPrintBack(rest, expected, sawFormat || IsFormat(g));
      var gs := ActualGroups(tokens, expected, sawFormat).value;
      assert gs[1..] == ActualGroups(rest, expected, sawFormat || IsFormat(g)).value;
    }
  }

  /** The reader accepts exactly the printings of well-formed groups, and each of
      them prints differently. */
  lemma ReaderIsExact(tokens: seq<string>, expected: Bindings, gs: seq<Group>)
    ensures (WellFormed(gs, expected) && Render(gs) == tokens) <==> ActualGroups(tokens, expected, false) == Some(gs)
  {
    hide ActualGroups, Acceptable;
    if WellFormed(gs, expected) && Render(gs) == tokens {
      PrintedGroupsReadBack(gs, expected, false);
    }
    if ActualGroups(tokens, expected, false) == Some(gs) {
      ReadGroupsPrintBack(tokens, expected, false);
    }
  }

  /** The options of an actual call: all but `--format`. */
  function Options(gs: seq<Group>): Bindings { Bound(gs) - {FORMAT} }

  lemma OptionsEmpty()
    ensures Options([]) == map[]
  { }

  lemma OptionsSnoc(gs: seq<Group>, g: Group)
    ensures Options(gs + [g]) == if g.Pos? || IsFormat(g) then Options(gs) else Bind(Options(gs), g.name, ValueOf(g))
    ensures Positionals(gs + [g]) == Positionals(gs) + if g.Pos? then [g.text] else []
  {
    hide Bound, Positionals;
    BoundSnoc(gs, g);
  }

  /** What the caller keeps of the groups read. */
  function Summary(read: Option<seq<Group>>): Option<(Bindings, seq<string>)> {
    if read.None? then None else Some((Options(read.value), Positionals(read.value)))
  }

  /** `_normalize_actual_arguments`. */
  method NormalizeActualArguments(tokens: seq<string>, expected: Bindings)
    returns (r: Option<(Bindings, seq<string>)>)
    ensures r == Summary(ActualGroups(tokens, expected, false))
  {
    hide Values, Names, Options, Positionals, HasEquals, Before, After, EqualsAt, Takes, Bind, IsOption;
    var options: Bindings, positionals: seq<string>, sawFormat, index := map[], [], false, 0;
    ghost var done: seq<Group> := [];
    assert Options([]) == map[] && Positionals([]) == [] by { BoundEmpty(); OptionsEmpty(); }
    assert tokens[0..] == tokens;
    ContinuesAtStart(tokens, expected);
    while index < |tokens|
      invariant index <= |tokens|
      invariant Continues(tokens, expected, done, tokens[index..], sawFormat)
      invariant options == Options(done) && positionals == Positionals(done)
    {
      var token := tokens[index];
      ghost var rest := tokens[index..];
      ghost var g := ActualHead(rest, expected);
      hide Continues, ActualGroups;
      var option, equals := Before(token), HasEquals(token);
      PartitionJoins(token);
      StepReads(tokens, expected, done, rest, sawFormat);
      if option == FORMAT {
        if sawFormat { return None; }
        var value;
        if equals {
          value := After(token);
        } else if index + 1 < |tokens| {
          value := tokens[index + 1];
          index := index + 1;
        } else {
          return None;
        }
        if value != JSON { return None; }
        sawFormat := true;
      } else if IsOption(option) {
        if option !in expected { return None; }
        var takesValue := Takes(expected[option]);
        var value: Option<string>;
        if equals {
          if !takesValue || After(token) == "" { return None; }
          value := Some(After(token));
        } else if takesValue {
          if index + 1 >= |tokens| || IsOption(tokens[index + 1]) { return None; }
          value := Some(tokens[index + 1]);
          index := index + 1;
        } else {
          value := None;
        }
        options := Bind(options, option, value);
      } else {
        positionals := positionals + [token];
      }
      index := index + 1;
      assert rest[|Tokens(g.value)|..] == tokens[index..];
      OptionsSnoc(done, g.value);
      done := done + [g.value];
    }
    assert tokens[index..] == [];
    assert done + [] == done;
    r := Some((options, positionals));
  }

  /** What is left to read, given what has been read. */
  ghost predicate Continues(
    tokens: seq<string>, expected: Bindings, done: seq<Group>, rest: seq<string>, sawFormat: bool)
  {
    ActualGroups(tokens, expected, false) ==
    var more := ActualGroups(rest, expected, sawFormat);
    if more.None? then None else Some(done + more.value)
  }

  lemma StepReads(tokens: seq<string>, expected: Bindings, done: seq<Group>, rest: seq<string>, sawFormat: bool)
    requires rest != [] && Continues(tokens, expected, done, rest, sawFormat)
    ensures var h := ActualHead(rest, expected);
            if h.None? || (sawFormat && IsFormat(h.value)) then ActualGroups(tokens, expected, false) == None
            else
              Continues(tokens, expected, done + [h.value], rest[|Tokens(h.value)|..], sawFormat || IsFormat(h.value))
  {
    hide ActualHead;
    var h := ActualHead(rest, expected);
    if h.Some? && !(sawFormat && IsFormat(h.value)) {
      var more := ActualGroups(rest[|Tokens(h.value)|..], expected, sawFormat || IsFormat(h.value));
      if more.Some? {
        assert done + ([h.value] + more.value) == done + [h.value] + more.value;
      }
    }
  }

  lemma ContinuesAtStart(tokens: seq<string>, expected: Bindings)
    ensures Continues(tokens, expected, [], tokens, false)
  {
    hide ActualGroups;
    var more := ActualGroups(tokens, expected, false);
    if more.Some? { assert [] + more.value == more.value; }
  }
}
