/** Private host paths: scanning a text and its decoded view, merging the spans
    found, and redacting them. */
module PrivatePaths {
  import opened Common

  const MAX_SPANS: nat := 4096
  const MAX_VIEW_CHARACTERS: nat := 64 * 1024
  const SCAN_FACTOR: nat := 4

  datatype Span = Span(start: nat, end: nat)

  predicate Covers(s: Span, i: nat) { s.start <= i < s.end }

  ghost predicate Covered(spans: seq<Span>, i: nat) {
    exists k :: 0 <= k < |spans| && Covers(spans[k], i)
  }

  /** Non-empty and inside a text of length `n`. */
  predicate Fits(s: Span, n: nat) { s.start < s.end <= n }

  ghost predicate AllFit(spans: seq<Span>, n: nat) {
    forall k :: 0 <= k < |spans| ==> Fits(spans[k], n)
  }

  // ------------------------------------------------------------- literal scan

  /** What the path grammar says of a text: where a path form is rooted, how far
      the path reaches, whether it is complete, and which spans are protected
      (`None` when there are too many of them). */
  datatype Grammar = Grammar(
    rootEnd: nat -> Option<nat>, pathEnd: nat -> nat, complete: nat -> bool, shielded: Option<seq<Span>>)

  /** A form's root lies after its start and its end after its root; the protected
      spans are sorted, and there cannot be too many of them in an empty text. */
  ghost predicate Sound(g: Grammar, n: nat) {
    && (forall i: nat :: i < n && g.rootEnd(i).Some? ==> i < g.rootEnd(i).value <= g.pathEnd(i) <= n)
    && (g.shielded.Some? ==> AllFit(g.shielded.value, n) && ByStart(g.shielded.value))
    && (n == 0 ==> g.shielded.Some?)
  }

  ghost predicate Ascending(spans: seq<Span>) {
    forall a, b :: 0 <= a < b < |spans| ==> spans[a].end <= spans[b].start
  }

  ghost predicate ByStart(spans: seq<Span>) {
    forall a, b :: 0 <= a < b < |spans| ==> spans[a].start <= spans[b].start
  }

  /** A complete path begins at `i`. */
  predicate PathAt(g: Grammar, i: nat) { g.rootEnd(i).Some? && g.complete(i) }

  /** A complete path begins at `i` and nothing protects it. */
  ghost predicate Exposed(g: Grammar, i: nat) {
    g.shielded.Some? && PathAt(g, i) && !Covered(g.shielded.value, i)
  }

  /** An exposed path that no leading path before it reaches into: the paths that are
      met when the text is read from the left. */
  ghost predicate Leading(g: Grammar, i: nat)
    decreases i
  {
    Exposed(g, i) && forall j: nat :: j < i && Leading(g, j) ==> g.pathEnd(j) <= i
  }

  /** Character `x` lies in a leading path. */
  ghost predicate InLeading(g: Grammar, n: nat, x: nat) {
    exists i: nat :: i < n && Leading(g, i) && i <= x < g.pathEnd(i)
  }

  /** Character `x` lies in an exposed path. */
  ghost predicate InExposed(g: Grammar, n: nat, x: nat) {
    exists i: nat :: i < n && Exposed(g, i) && i <= x < g.pathEnd(i)
  }

  /** The characters the scan walks over from `i` on: those after the root of every
      form it meets, where it goes on after a complete path and at the next
      character otherwise. */
  ghost function ScanCost(g: Grammar, n: nat, i: nat): nat
    requires Sound(g, n) && g.shielded.Some?
    decreases n - i
  {
    if i >= n then 0
    else if Covered(g.shielded.value, i) || g.rootEnd(i).None? then ScanCost(g, n, i + 1)
    else
      g.pathEnd(i) - g.rootEnd(i).value + ScanCost(g, n, if g.complete(i) then g.pathEnd(i) else i + 1)
  }

  /** Too many protected spans, or more walking than four times the text. */
  ghost predicate GivesUp(g: Grammar, n: nat)
    requires Sound(g, n)
  {
    g.shielded.None? || ScanCost(g, n, 0) > SCAN_FACTOR * n
  }

  /** The spans are exactly the leading paths that begin below `upTo`, in order. */
  ghost predicate Reports(g: Grammar, spans: seq<Span>, upTo: nat) {
    && (forall k :: 0 <= k < |spans| ==>
          && spans[k].start < upTo && Leading(g, spans[k].start) && spans[k].end == g.pathEnd(spans[k].start))
    && (forall i: nat :: i < upTo && Leading(g, i) ==> exists k :: 0 <= k < |spans| && spans[k].start == i)
  }

  /** What the scan has found when it stands at `index`. */
  ghost predicate Scanned(n: nat, g: Grammar, spans: seq<Span>, index: nat) {
    && index <= n
    && AllFit(spans, n) && Ascending(spans) && Reports(g, spans, index)
    && (forall k :: 0 <= k < |spans| ==> spans[k].end <= index)
  }

  lemma ScanNothing(n: nat, g: Grammar)
    ensures Scanned(n, g, [], 0)
  { }

  /** Going on over characters where no exposed path begins. */
  lemma ScanOn(n: nat, g: Grammar, spans: seq<Span>, index: nat, next: nat)
    requires Scanned(n, g, spans, index) && index <= next <= n
    requires forall i: nat :: index <= i < next ==> !Exposed(g, i)
    ensures Scanned(n, g, spans, next)
  {
    hide Covered, Ascending, AllFit;
    forall i: nat | i < next && Leading(g, i) ensures i < index { assert Exposed(g, i); }
    hide Exposed, Leading;
  }

  /** Going on over a protected span. */
  lemma ScanShielded(n: nat, g: Grammar, spans: seq<Span>, index: nat, s: Span)
    requires Sound(g, n) && Scanned(n, g, spans, index) && g.shielded.Some? && s in g.shielded.value
    requires s.start <= index < s.end <= n
    ensures Scanned(n, g, spans, s.end)
    ensures ScanCost(g, n, index) == ScanCost(g, n, s.end)
  {
    var shielded := g.shielded.value;
    var k :| 0 <= k < |shielded| && shielded[k] == s;
    forall i: nat | index <= i < s.end ensures Covered(shielded, i) { assert Covers(shielded[k], i); }
    forall i: nat | index <= i < s.end ensures !Exposed(g, i) { assert Covered(shielded, i); }
    hide Covered, Scanned, Sound;
    ScanOn(n, g, spans, index, s.end);
    ShieldedIsFree(g, n, index, s.end);
  }

  lemma {:induction false} ShieldedIsFree(g: Grammar, n: nat, index: nat, next: nat)
    requires Sound(g, n) && g.shielded.Some? && index <= next <= n
    requires forall i: nat :: index <= i < next ==> Covered(g.shielded.value, i)
    ensures ScanCost(g, n, index) == ScanCost(g, n, next)
    decreases next - index
  {
    hide Covered, Sound;
    if index < next { ShieldedIsFree(g, n, index + 1, next); }
  }

  /** Reporting the exposed path that begins at `index`. */
  lemma ScanReport(n: nat, g: Grammar, spans: seq<Span>, index: nat)
    requires Sound(g, n) && Scanned(n, g, spans, index) && index < n && Exposed(g, index)
    ensures Scanned(n, g, spans + [Span(index, g.pathEnd(index))], g.pathEnd(index))
  {
    var s := Span(index, g.pathEnd(index));
    var all := spans + [s];
    assert index < g.rootEnd(index).value <= s.end <= n;
    hide Exposed, Sound, Covered;
    forall j: nat | j < index && Leading(g, j) ensures g.pathEnd(j) <= index {
      var k :| 0 <= k < |spans| && spans[k].start == j;
    }
    assert Leading(g, index);
    forall i: nat | i < s.end && Leading(g, i) ensures exists k :: 0 <= k < |all| && all[k].start == i {
      if i < index {
        var k :| 0 <= k < |spans| && spans[k].start == i;
        assert all[k].start == i;
      } else {
        assert i == index;
        assert all[|spans|].start == i;
      }
    }
    hide Leading;
  }

  /** The first `next` protected spans end at or before `index`. */
  ghost predicate Passed(shielded: seq<Span>, next: nat, index: nat) {
    next <= |shielded| && forall k :: 0 <= k < next ==> shielded[k].end <= index
  }

  lemma PassOne(shielded: seq<Span>, next: nat, index: nat)
    requires Passed(shielded, next, index) && next < |shielded| && shielded[next].end <= index
    ensures Passed(shielded, next + 1, index)
  { }

  lemma PassOn(shielded: seq<Span>, next: nat, index: nat)
    ensures Passed(shielded, 0, index)
    ensures forall later: nat :: Passed(shielded, next, index) && index <= later ==> Passed(shielded, next, later)
  { }

  lemma NotShielded(shielded: seq<Span>, next: nat, index: nat)
    requires ByStart(shielded) && Passed(shielded, next, index)
    requires next < |shielded| ==> index < shielded[next].start
    ensures !Covered(shielded, index)
  { }

  lemma CostAt(g: Grammar, n: nat, i: nat)
    requires Sound(g, n) && g.shielded.Some? && i < n && !Covered(g.shielded.value, i)
    ensures if g.rootEnd(i).None? then ScanCost(g, n, i) == ScanCost(g, n, i + 1)
            else
              var next := if g.complete(i) then g.pathEnd(i) else i + 1;
              && i < g.rootEnd(i).value <= g.pathEnd(i) <= n
              && ScanCost(g, n, i) == g.pathEnd(i) - g.rootEnd(i).value + ScanCost(g, n, next)
  { }

  lemma ShieldedFits(g: Grammar, n: nat)
    requires Sound(g, n) && g.shielded.Some?
    ensures AllFit(g.shielded.value, n) && ByStart(g.shielded.value)
  { }

  lemma ExposedAt(g: Grammar, i: nat)
    ensures Exposed(g, i) <==>
              g.shielded.Some? && g.rootEnd(i).Some? && g.complete(i) && !Covered(g.shielded.value, i)
  { }

  /** `_literal_private_host_path_spans`: the leading paths, in order; `None` stands
      for giving up on the whole text. */
  method LiteralSpans(n: nat, g: Grammar) returns (r: Option<seq<Span>>)
    requires Sound(g, n)
    ensures r.None? <==> GivesUp(g, n)
    ensures r.Some? ==> AllFit(r.value, n) && Ascending(r.value) && Reports(g, r.value, n)
  {
    if g.shielded.None? { return None; }
    var shielded := g.shielded.value;
    var spans: seq<Span> := [];
    var next, index: nat, scanned := 0, 0, 0;
    ScanNothing(n, g);
    ShieldedFits(g, n);
    PassOn(shielded, 0, 0);
    hide Sound, ByStart, Passed;
    while index < n
      invariant next <= |shielded| && Passed(shielded, next, index)
      invariant Scanned(n, g, spans, index)
      invariant scanned + ScanCost(g, n, index) == ScanCost(g, n, 0) && scanned <= SCAN_FACTOR * n
      decreases n - index
    {
      hide Scanned, Covered, Reports, Leading, Ascending, ScanCost, Exposed, PathAt;
      while next < |shielded| && shielded[next].end <= index
        invariant next <= |shielded| && Passed(shielded, next, index)
      {
        PassOne(shielded, next, index);
        next := next + 1;
      }
      PassOn(shielded, next, index);
      if next < |shielded| && shielded[next].start <= index {
        ScanShielded(n, g, spans, index, shielded[next]);
        index := shielded[next].end;
        continue;
      }
      NotShielded(shielded, next, index);
      CostAt(g, n, index);
      ExposedAt(g, index);
      var root := g.rootEnd(index);
      if root.None? {
        ScanOn(n, g, spans, index, index + 1);
        index := index + 1;
        continue;
      }
      var end := g.pathEnd(index);
      scanned := scanned + (end - root.value);
      if scanned > SCAN_FACTOR * n { return None; }
      if g.complete(index) {
        ScanReport(n, g, spans, index);
        spans := spans + [Span(index, end)];
        index := end;
      } else {
        ScanOn(n, g, spans, index, index + 1);
        index := index + 1;
      }
    }
    r := Some(spans);
  }

  // ------------------------------------------------- what the reported spans cover

  lemma ReportsCover(g: Grammar, spans: seq<Span>, n: nat, x: nat)
    requires Reports(g, spans, n)
    ensures Covered(spans, x) <==> InLeading(g, n, x)
  {
    hide Leading;
    if Covered(spans, x) {
      var k :| 0 <= k < |spans| && Covers(spans[k], x);
      assert Leading(g, spans[k].start);
    }
    if InLeading(g, n, x) {
      var i: nat :| i < n && Leading(g, i) && i <= x < g.pathEnd(i);
      var k :| 0 <= k < |spans| && spans[k].start == i;
      assert Covers(spans[k], x);
    }
  }

  ghost function LeadingStarts(g: Grammar, n: nat): set<nat> {
    set i: nat | i < n && Leading(g, i)
  }

  /** As many spans as leading paths. */
  lemma ReportsCount(g: Grammar, spans: seq<Span>, n: nat)
    requires Reports(g, spans, n) && AllFit(spans, n) && Ascending(spans)
    ensures |spans| == |LeadingStarts(g, n)|
  {
    hide Leading;
    StartsCount(spans, |spans|, n);
    assert LeadingStarts(g, n) == StartsOf(spans, |spans|);
  }

  ghost function StartsOf(spans: seq<Span>, m: nat): set<nat>
    requires m <= |spans|
  {
    set k | 0 <= k < m :: spans[k].start
  }

  lemma {:induction false} StartsCount(spans: seq<Span>, m: nat, n: nat)
    requires m <= |spans| && AllFit(spans, n) && Ascending(spans)
    ensures |StartsOf(spans, m)| == m
  {
    if m > 0 {
      StartsCount(spans, m - 1, n);
      assert StartsOf(spans, m) == StartsOf(spans, m - 1) + {spans[m - 1].start};
      forall k | 0 <= k < m - 1 ensures spans[k].start < spans[m - 1].start {
        assert spans[k].end <= spans[m - 1].start;
      }
    } else {
      assert StartsOf(spans, 0) == {};
    }
  }

  /** One leading path is the whole text. */
  ghost predicate WholePath(g: Grammar, n: nat) { n > 0 && Leading(g, 0) && g.pathEnd(0) == n }

  lemma ReportsWhole(g: Grammar, spans: seq<Span>, n: nat)
    requires Reports(g, spans, n) && AllFit(spans, n)
    ensures Span(0, n) in spans <==> WholePath(g, n)
  {
    hide Leading;
    if Span(0, n) in spans {
      var k :| 0 <= k < |spans| && spans[k] == Span(0, n);
    }
    if WholePath(g, n) {
      var k :| 0 <= k < |spans| && spans[k].start == 0;
      assert spans[k] == Span(0, n);
    }
  }

  /** Every exposed path begins inside a leading one. */
  lemma ExposedBeginsInLeading(g: Grammar, n: nat, i: nat)
    requires Sound(g, n) && i < n && Exposed(g, i)
    ensures InLeading(g, n, i)
  {
    if !Leading(g, i) {
      var j: nat :| j < i && Leading(g, j) && g.pathEnd(j) > i;
    } else {
      assert g.rootEnd(i).Some?;
    }
  }

  /** An exposed path that begins inside a leading one reaches past it only where
      leading paths follow. */
  ghost predicate NoOverhang(g: Grammar, n: nat) {
    forall i: nat, j: nat, x: nat ::
      i < j < n && Leading(g, i) && Exposed(g, j) && j < g.pathEnd(i) <= x < g.pathEnd(j) ==> InLeading(g, n, x)
  }

  /** The leading paths cover all exposed paths exactly when none that begins inside
      one of them hangs over its end. */
  lemma ExposedIsCoveredExactly(g: Grammar, n: nat)
    requires Sound(g, n)
    ensures (forall x: nat :: InExposed(g, n, x) <==> InLeading(g, n, x)) <==> NoOverhang(g, n)
  {
    hide Sound;
    forall x: nat | InLeading(g, n, x) ensures InExposed(g, n, x) {
      var i: nat :| i < n && Leading(g, i) && i <= x < g.pathEnd(i);
      assert Exposed(g, i);
    }
    if NoOverhang(g, n) {
      forall x: nat | InExposed(g, n, x) ensures InLeading(g, n, x) {
        var j: nat :| j < n && Exposed(g, j) && j <= x < g.pathEnd(j);
        ExposedBeginsInLeading(g, n, j);
        var i: nat :| i < n && Leading(g, i) && i <= j < g.pathEnd(i);
        if g.pathEnd(i) <= x { assert i < j; }
      }
    }
    if forall x: nat :: InExposed(g, n, x) <==> InLeading(g, n, x) {
      forall i: nat, j: nat, x: nat
        | i < j < n && Leading(g, i) && Exposed(g, j) && j < g.pathEnd(i) <= x < g.pathEnd(j)
        ensures InLeading(g, n, x)
      {
        assert InExposed(g, n, x);
      }
    }
  }

  /** The forms of `/a"/b, c"`: a path at 0 that ends at the comma, and inside it a
      quoted one that ends at the closing quote. */
  const OVERHANGING := Grammar(
    (i: nat) => if i == 0 || i == 3 then Some(i + 1) else None,
    (i: nat) => if i == 0 then 5 else if i == 3 then 8 else i + 1,
    (i: nat) => true,
    Some([]))

  /** So the promise that no suffix of a path is kept fails: the last characters of
      the quoted path lie in no leading path. */
  lemma OverhangIsKept()
    ensures Sound(OVERHANGING, 9) && !GivesUp(OVERHANGING, 9)
    ensures InExposed(OVERHANGING, 9, 7) && !InLeading(OVERHANGING, 9, 7)
  {
    var g := OVERHANGING;
    forall i: nat ensures !Covered([], i) { }
    assert Exposed(g, 0) && Exposed(g, 3);
    assert Leading(g, 0) && g.pathEnd(0) == 5;
    assert !Leading(g, 3);
    forall i: nat | Leading(g, i) ensures i == 0 { assert Exposed(g, i); }
    OverhangCost();
  }

  lemma OverhangCost()
    requires Sound(OVERHANGING, 9)
    ensures ScanCost(OVERHANGING, 9, 0) == 4
  {
    var g := OVERHANGING;
    forall i: nat ensures !Covered([], i) { }
    assert ScanCost(g, 9, 9) == 0;
    assert ScanCost(g, 9, 8) == 0;
    assert ScanCost(g, 9, 7) == 0;
    assert ScanCost(g, 9, 6) == 0;
    assert ScanCost(g, 9, 5) == 0;
  }

  // ------------------------------------------------------------ decoded view

  function LowerHex(c: char): char {
    if c == 'F' then 'f' else if c == 'C' then 'c' else c
  }

  /** The separator escaped at `i` and how many characters it takes. */
  function EscapeAt(text: string, i: nat): Option<(char, nat)>
    requires i < |text|
  {
    if i + 2 <= |text| && text[i] == '\\' && text[i + 1] == '/' then Some(('/', 2))
    else if i + 2 <= |text| && text[i] == '\\' && text[i + 1] == '\\' then Some(('\\', 2))
    else if i + 6 <= |text| && text[i] == '\\' && text[i + 1] == 'u' && text[i + 2] == '0' && text[i + 3] == '0' then
      if text[i + 4] == '2' && LowerHex(text[i + 5]) == 'f' then Some(('/', 6))
      else if text[i + 4] == '5' && LowerHex(text[i + 5]) == 'c' then Some(('\\', 6))
      else None
    else None
  }

  ghost predicate Tiles(sources: seq<Span>, n: nat) {
    && (forall k :: 0 <= k < |sources| ==> sources[k].start < sources[k].end)
    && (if sources == [] then n == 0 else sources[0].start == 0 && sources[|sources| - 1].end == n)
    && (forall k :: 0 < k < |sources| ==> sources[k - 1].end == sources[k].start)
  }

  /** The ways to escape a separator, each with what it stands for. */
  const ESCAPES: seq<(string, char)> := [
    ("\\/", '/'), ("\\\\", '\\'),
    ("\\u002f", '/'), ("\\u002F", '/'), ("\\u005c", '\\'), ("\\u005C", '\\')]

  /** `c` stands for the span: a separator for an escape of it, any other character for
      itself, where no escape begins. */
  ghost predicate StandsFor(text: string, c: char, s: Span) {
    && s.start < s.end <= |text|
    && (|| (text[s.start..s.end], c) in ESCAPES
        || (&& s.end == s.start + 1 && c == text[s.start]
            && forall e :: e in ESCAPES ==> !(e.0 <= text[s.start..])))
  }

  /** An escape stands at `i` exactly when one of the ways to write it does. */
  lemma EscapesExactly(text: string, i: nat)
    requires i < |text|
    ensures EscapeAt(text, i).Some? ==>
              var (c, n) := EscapeAt(text, i).value;
              i + n <= |text| && (text[i..i + n], c) in ESCAPES
    ensures EscapeAt(text, i).None? ==> forall e :: e in ESCAPES ==> !(e.0 <= text[i..])
  {
    if EscapeAt(text, i).Some? {
      var (c, n) := EscapeAt(text, i).value;
      EscapeInTable(text, i, c, n);
    } else {
      forall k | 0 <= k < |ESCAPES| ensures !(ESCAPES[k].0 <= text[i..]) { NoEscape(text, i, k); }
    }
  }

  lemma EscapeInTable(text: string, i: nat, c: char, n: nat)
    requires i < |text| && EscapeAt(text, i) == Some((c, n))
    ensures i + n <= |text| && (text[i..i + n], c) in ESCAPES
  {
    var w := text[i..i + n];
    if n == 2 {
      assert w == [w[0], w[1]];
      assert ESCAPES[0].0 == ['\\', '/'] && ESCAPES[1].0 == ['\\', '\\'];
      assert (w, c) == ESCAPES[0] || (w, c) == ESCAPES[1];
    } else {
      assert w == [w[0], w[1], w[2], w[3], w[4], w[5]];
      assert ESCAPES[2].0 == ['\\', 'u', '0', '0', '2', 'f'] && ESCAPES[3].0 == ['\\', 'u', '0', '0', '2', 'F'];
      assert ESCAPES[4].0 == ['\\', 'u', '0', '0', '5', 'c'] && ESCAPES[5].0 == ['\\', 'u', '0', '0', '5', 'C'];
      assert (w, c) == ESCAPES[2] || (w, c) == ESCAPES[3] || (w, c) == ESCAPES[4] || (w, c) == ESCAPES[5];
    }
  }

  lemma NoEscape(text: string, i: nat, k: nat)
    requires i < |text| && k < |ESCAPES| && EscapeAt(text, i).None?
    ensures !(ESCAPES[k].0 <= text[i..])
  {
    PrefixAt(ESCAPES[k].0, text, i);
  }

  lemma PrefixAt(e: string, text: string, i: nat)
    requires i <= |text|
    ensures e <= text[i..] ==> i + |e| <= |text| && forall m :: 0 <= m < |e| ==> text[i + m] == e[m]
  { }

  /** Every decoded character stands for its source span. */
  ghost predicate Decodes(text: string, decoded: string, sources: seq<Span>) {
    |decoded| == |sources| && forall k :: 0 <= k < |sources| ==> StandsFor(text, decoded[k], sources[k])
  }

  /** `_json_path_separator_view`: the decoded text, its source spans tiling the
      original. */
  method SeparatorView(text: string) returns (decoded: string, sources: seq<Span>)
    ensures Tiles(sources, |text|) && Decodes(text, decoded, sources) && |decoded| == |sources|
  {
    hide EscapeAt, Tiles, Decodes, StandsFor;
    decoded, sources := "", [];
    var index := 0;
    ViewNothing(text);
    while index < |text|
      invariant index <= |text| && |decoded| == |sources|
      invariant Tiles(sources, index) && Decodes(text, decoded, sources)
      decreases |text| - index
    {
      EscapeFits(text, index);
      NextStandsFor(text, index);
      var e := EscapeAt(text, index);
      var (c, consumed) := if e.Some? then e.value else (text[index], 1);
      TilesGrow(sources, index, index + consumed);
      DecodesGrow(text, decoded, sources, c, Span(index, index + consumed));
      decoded := decoded + [c];
      sources := sources + [Span(index, index + consumed)];
      index := index + consumed;
    }
  }

  lemma ViewNothing(text: string)
    ensures Tiles([], 0) && Decodes(text, "", [])
  { }

  lemma EscapeFits(text: string, i: nat)
    requires i < |text|
    ensures var e := EscapeAt(text, i); e.Some? ==> e.value.1 > 0 && i + e.value.1 <= |text|
  { }

  lemma TilesGrow(sources: seq<Span>, index: nat, end: nat)
    requires Tiles(sources, index) && index < end
    ensures Tiles(sources + [Span(index, end)], end)
  { }

  lemma DecodesGrow(text: string, decoded: string, sources: seq<Span>, c: char, s: Span)
    requires Decodes(text, decoded, sources) && StandsFor(text, c, s)
    ensures Decodes(text, decoded + [c], sources + [s])
  {
    hide StandsFor;
  }

  lemma NextStandsFor(text: string, index: nat)
    requires index < |text|
    ensures var e := EscapeAt(text, index);
            if e.Some? then StandsFor(text, e.value.0, Span(index, index + e.value.1))
            else StandsFor(text, text[index], Span(index, index + 1))
  {
    EscapeFits(text, index);
    EscapesExactly(text, index);
    hide EscapeAt;
  }

  /** A span of the decoded view, mapped back to the text. */
  function MapBack(sources: seq<Span>, s: Span): Span
    requires Fits(s, |sources|)
  {
    Span(sources[s.start].start, sources[s.end - 1].end)
  }

  lemma {:induction false} TilesOrdered(sources: seq<Span>, n: nat, a: nat, b: nat)
    requires Tiles(sources, n) && a < b < |sources|
    ensures sources[a].end <= sources[b].start
    decreases b - a
  {
    if a + 1 < b {
      TilesOrdered(sources, n, a, b - 1);
    }
    assert sources[b - 1].end == sources[b].start;
  }

  /** Mapping back covers exactly the sources of the covered characters. */
  lemma MapBackCovers(sources: seq<Span>, n: nat, s: Span, i: nat)
    requires Tiles(sources, n) && Fits(s, |sources|)
    ensures Fits(MapBack(sources, s), n)
    ensures Covers(MapBack(sources, s), i) <==> exists k: nat :: Covers(s, k) && Covers(sources[k], i)
  {
    var last := s.end - 1;
    if s.start < last { TilesOrdered(sources, n, s.start, last); }
    if last < |sources| - 1 { TilesOrdered(sources, n, last, |sources| - 1); }
    if Covers(MapBack(sources, s), i) {
      var k := FindSource(sources, n, s.start, last, i);
      assert Covers(s, k) && Covers(sources[k], i);
    }
    if k: nat :| Covers(s, k) && Covers(sources[k], i) {
      if s.start < k { TilesOrdered(sources, n, s.start, k); }
      if k < last { TilesOrdered(sources, n, k, last); }
    }
  }

  lemma {:induction false} FindSource(sources: seq<Span>, n: nat, a: nat, b: nat, i: nat) returns (k: nat)
    requires Tiles(sources, n) && a <= b < |sources| && sources[a].start <= i < sources[b].end
    ensures a <= k <= b && Covers(sources[k], i)
    decreases b - a
  {
    if i < sources[a].end {
      k := a;
    } else {
      assert a < b;
      assert sources[a + 1 - 1].end == sources[a + 1].start;
      k := FindSource(sources, n, a + 1, b, i);
    }
  }

  // ------------------------------------------------------------------- merging

  predicate Before(a: Span, b: Span) { a.start < b.start || (a.start == b.start && a.end <= b.end) }

  function InsertSpan(s: Span, spans: seq<Span>): seq<Span> {
    if spans == [] || Before(s, spans[0]) then [s] + spans else [spans[0]] + InsertSpan(s, spans[1..])
  }

  function SortSpans(spans: seq<Span>): seq<Span> {
    if spans == [] then [] else InsertSpan(spans[0], SortSpans(spans[1..]))
  }

  lemma {:induction false} InsertSorted(s: Span, spans: seq<Span>, out: seq<Span>)
    requires ByStart(spans) && out == InsertSpan(s, spans)
    ensures ByStart(out) && forall x :: x in out <==> x == s || x in spans
  {
    if spans != [] && !Before(s, spans[0]) {
      var rest := InsertSpan(s, spans[1..]);
      InsertSorted(s, spans[1..], rest);
      forall b | 0 < b < |out| ensures out[0].start <= out[b].start {
        assert out[b] == rest[b - 1] && rest[b - 1] in rest;
      }
      assert forall x :: x in spans <==> x == spans[0] || x in spans[1..];
    }
  }

  lemma {:induction false} SortSorted(spans: seq<Span>, out: seq<Span>)
    requires out == SortSpans(spans)
    ensures ByStart(out) && forall x :: x in out <==> x in spans
  {
    if spans != [] {
      var rest := SortSpans(spans[1..]);
      SortSorted(spans[1..], rest);
      InsertSorted(spans[0], rest, out);
      assert forall x :: x in spans <==> x == spans[0] || x in spans[1..];
    }
  }

  /** In order, with a gap between any two. */
  ghost predicate Apart(spans: seq<Span>) {
    forall a, b :: 0 <= a < b < |spans| ==> spans[a].end < spans[b].start
  }

  lemma CoveredSnoc(spans: seq<Span>, s: Span, i: nat)
    ensures Covered(spans + [s], i) <==> Covered(spans, i) || Covers(s, i)
  {
    var all := spans + [s];
    assert all[|spans|] == s;
    if Covered(spans, i) {
      var k :| 0 <= k < |spans| && Covers(spans[k], i);
      assert Covers(all[k], i);
    }
  }

  ghost predicate SameUnion(a: seq<Span>, b: seq<Span>) {
    forall i: nat :: Covered(a, i) <==> Covered(b, i)
  }

  /** What the merge loop has after the first `k` sorted spans. */
  ghost predicate Merging(merged: seq<Span>, done: seq<Span>, n: nat) {
    && AllFit(merged, n) && Apart(merged) && SameUnion(merged, done)
    && (merged != [] ==> done != [] && merged[|merged| - 1].start <= done[|done| - 1].start)
  }

  /** The merge loop: sorted, in-bounds, non-touching spans that cover exactly what
      the given spans cover. */
  method MergeSpans(spans: seq<Span>, n: nat) returns (merged: seq<Span>)
    requires AllFit(spans, n)
    ensures AllFit(merged, n) && Apart(merged)
    ensures forall i: nat :: Covered(merged, i) <==> Covered(spans, i)
  {
    hide Covered, SortSpans;
    var sorted := SortSpans(spans);
    SortSorted(spans, sorted);
    forall k | 0 <= k < |sorted| ensures Fits(sorted[k], n) { assert sorted[k] in sorted; }
    merged := [];
    assert Merging([], sorted[..0], n);
    for k := 0 to |sorted|
      invariant Merging(merged, sorted[..k], n)
    {
      hide Merging;
      var s := sorted[k];
      assert sorted[..k + 1] == sorted[..k] + [s];
      if merged != [] && s.start <= merged[|merged| - 1].end {
        var top := merged[|merged| - 1];
        MergeJoins(merged, sorted[..k], s, n);
        merged := merged[..|merged| - 1] + [Span(top.start, if top.end < s.end then s.end else top.end)];
      } else {
        MergeAppends(merged, sorted[..k], s, n);
        merged := merged + [s];
      }
    }
    assert sorted[..|sorted|] == sorted;
    forall i: nat ensures Covered(sorted, i) <==> Covered(spans, i) { SameCover(sorted, spans, i); }
  }

  lemma MergeJoins(merged: seq<Span>, done: seq<Span>, s: Span, n: nat)
    requires Merging(merged, done, n) && Fits(s, n) && ByStart(done + [s])
    requires merged != [] && s.start <= merged[|merged| - 1].end
    ensures var top := merged[|merged| - 1];
            Merging(
              merged[..|merged| - 1] + [Span(top.start, if top.end < s.end then s.end else top.end)], done + [s], n)
  {
    hide Covered;
    var top := merged[|merged| - 1];
    var joined := Span(top.start, if top.end < s.end then s.end else top.end);
    assert (done + [s])[|done| - 1] == done[|done| - 1] && (done + [s])[|done|] == s;
    JoinedCovers(merged, s, joined);
    forall i: nat { CoveredSnoc(done, s, i); }
  }

  lemma MergeAppends(merged: seq<Span>, done: seq<Span>, s: Span, n: nat)
    requires Merging(merged, done, n) && Fits(s, n) && ByStart(done + [s])
    requires merged != [] ==> merged[|merged| - 1].end < s.start
    ensures Merging(merged + [s], done + [s], n)
  {
    hide Covered;
    forall i: nat { CoveredSnoc(done, s, i); }
    forall i: nat { CoveredSnoc(merged, s, i); }
    forall a, b | 0 <= a < b < |merged| + 1 ensures (merged + [s])[a].end < (merged + [s])[b].start {
      if b == |merged| && a < b - 1 {
        assert merged[a].end < merged[b - 1].start;
      }
    }
  }

  lemma JoinedCovers(was: seq<Span>, s: Span, joined: Span)
    requires was != []
    requires var top := was[|was| - 1];
             top.start <= s.start <= top.end && top.start < top.end && s.start < s.end
             && joined == Span(top.start, if top.end < s.end then s.end else top.end)
    ensures forall i: nat :: Covered(was[..|was| - 1] + [joined], i) <==> Covered(was, i) || Covers(s, i)
  {
    var rest, top := was[..|was| - 1], was[|was| - 1];
    assert was == rest + [top];
    forall i: nat ensures Covered(rest + [joined], i) <==> Covered(was, i) || Covers(s, i) {
      CoveredSnoc(rest, joined, i);
      CoveredSnoc(rest, top, i);
    }
  }

  lemma SameCover(a: seq<Span>, b: seq<Span>, i: nat)
    requires forall x :: x in a <==> x in b
    ensures Covered(a, i) <==> Covered(b, i)
  {
    if Covered(a, i) {
      var k :| 0 <= k < |a| && Covers(a[k], i);
      assert a[k] in b;
    }
    if Covered(b, i) {
      var k :| 0 <= k < |b| && Covers(b[k], i);
      assert b[k] in a;
    }
  }

  // --------------------------------------------------------- the whole surface

  function Whole(n: nat): seq<Span> { [Span(0, n)] }

  /** Character `i` belongs to a decoded character that `spans` covers. */
  ghost predicate MappedCovers(spans: seq<Span>, sources: seq<Span>, i: nat) {
    exists j: nat :: Covered(spans, j) && j < |sources| && Covers(sources[j], i)
  }

  /** `_private_host_path_spans` over the literal spans of the text and, when it
      holds an escaped separator, those of its decoded view: mapped back and merged;
      the whole text once any limit is hit. */
  method PrivateSpans(
    n: nat, literal: Option<seq<Span>>, escaped: bool, sources: seq<Span>, decoded: Option<seq<Span>>)
    returns (spans: seq<Span>, gaveUp: bool)
    requires literal.Some? ==> AllFit(literal.value, n)
    requires escaped ==> Tiles(sources, n)
    requires escaped && decoded.Some? ==> AllFit(decoded.value, |sources|)
    ensures Apart(spans) && (n > 0 || !gaveUp ==> AllFit(spans, n))
    ensures gaveUp ==> spans == Whole(n)
    ensures gaveUp <==>
              literal.None? || |literal.value| > MAX_SPANS || Span(0, n) in literal.value
              || (escaped && (n > MAX_VIEW_CHARACTERS || decoded.None? || Span(0, |sources|) in decoded.value
                              || |literal.value| + |decoded.value| > MAX_SPANS))
    ensures !gaveUp ==>
              forall i: nat :: Covered(spans, i) <==>
                Covered(literal.value, i) || (escaped && MappedCovers(decoded.value, sources, i))
  {
    gaveUp, spans := true, Whole(n);
    if literal.None? || |literal.value| > MAX_SPANS || Span(0, n) in literal.value { return; }
    var found := literal.value;
    if escaped {
      if n > MAX_VIEW_CHARACTERS { return; }
      if decoded.None? || Span(0, |sources|) in decoded.value { return; }
      for k := 0 to |decoded.value|
        invariant |found| == |literal.value| + k <= MAX_SPANS
        invariant AllFit(found, n)
        invariant forall i: nat :: Covered(found, i) <==>
          Covered(literal.value, i) || MappedCovers(decoded.value[..k], sources, i)
      {
        if |found| >= MAX_SPANS { return; }
        var s := decoded.value[k];
        MapBackStep(literal.value, found, decoded.value, k, sources, n);
        found := found + [MapBack(sources, s)];
      }
      assert decoded.value[..|decoded.value|] == decoded.value;
    }
    spans := MergeSpans(found, n);
    gaveUp := false;
  }

  lemma MapBackStep(literal: seq<Span>, found: seq<Span>, decoded: seq<Span>, k: nat, sources: seq<Span>, n: nat)
    requires k < |decoded| && Tiles(sources, n) && AllFit(decoded, |sources|) && AllFit(found, n)
    requires forall i: nat :: Covered(found, i) <==>
      Covered(literal, i) || MappedCovers(decoded[..k], sources, i)
    ensures AllFit(found + [MapBack(sources, decoded[k])], n)
    ensures forall i: nat :: Covered(found + [MapBack(sources, decoded[k])], i) <==>
      Covered(literal, i) || MappedCovers(decoded[..k + 1], sources, i)
  {
    var s := decoded[k];
    var m := MapBack(sources, s);
    assert decoded[..k + 1] == decoded[..k] + [s];
    MapBackCovers(sources, n, s, 0);
    forall i: nat
      ensures Covered(found + [m], i) <==>
        Covered(literal, i) || MappedCovers(decoded[..k + 1], sources, i)
    {
      CoveredSnoc(found, m, i);
      MapBackCovers(sources, n, s, i);
      forall j: nat { CoveredSnoc(decoded[..k], s, j); }
      if Covers(m, i) {
        var j: nat :| Covers(s, j) && Covers(sources[j], i);
        assert Covered(decoded[..k + 1], j);
      }
      if j: nat :| Covered(decoded[..k], j) && j < |sources| && Covers(sources[j], i) {
        assert Covered(decoded[..k + 1], j);
      }
    }
  }

  // ------------------------------------------------------------------ redaction

  const TOKEN := "<redacted-host-path>"

  /** The stretches of text between the spans, the last one running to the end. */
  function Kept(text: string, spans: seq<Span>, from: nat): (parts: seq<string>)
    requires from <= |text| && AllFit(spans, |text|) && Apart(spans)
    requires spans != [] ==> from <= spans[0].start
    ensures |parts| == |spans| + 1
    decreases |spans|
  {
    if spans == [] then [text[from..]]
    else [text[from..spans[0].start]] + Kept(text, spans[1..], spans[0].end)
  }

  function JoinParts(parts: seq<string>): string
    requires parts != []
  {
    if |parts| == 1 then parts[0] else parts[0] + TOKEN + JoinParts(parts[1..])
  }

  ghost predicate Begins(spans: seq<Span>, i: nat) {
    exists k :: 0 <= k < |spans| && spans[k].start == i
  }

  /** The text from `i` on, character by character: a token where a span begins,
      nothing for the rest of it, and every other character itself. */
  ghost function Walk(text: string, spans: seq<Span>, i: nat): string
    requires i <= |text|
    decreases |text| - i
  {
    if i == |text| then ""
    else
      (if Begins(spans, i) then TOKEN else if Covered(spans, i) then "" else [text[i]])
      + Walk(text, spans, i + 1)
  }

  /** Up to the next span, the walk copies. */
  lemma {:induction false} WalkCopies(text: string, spans: seq<Span>, from: nat, upTo: nat)
    requires from <= upTo <= |text| && forall i: nat :: from <= i < upTo ==> !Covered(spans, i) && !Begins(spans, i)
    ensures Walk(text, spans, from) == text[from..upTo] + Walk(text, spans, upTo)
    decreases |text| - from
  {
    hide Covered, Begins;
    if from == upTo {
      assert text[from..upTo] == "";
    } else {
      WalkCopies(text, spans, from + 1, upTo);
      var head, middle := [text[from]], text[from + 1..upTo];
      assert text[from..upTo] == head + middle;
      Regroup(head, middle, Walk(text, spans, upTo));
    }
  }

  /** Inside a span, the walk says nothing. */
  lemma {:induction false} WalkSkips(text: string, spans: seq<Span>, from: nat, upTo: nat)
    requires from <= upTo <= |text| && forall i: nat :: from <= i < upTo ==> Covered(spans, i) && !Begins(spans, i)
    ensures Walk(text, spans, from) == Walk(text, spans, upTo)
    decreases |text| - from
  {
    hide Covered, Begins;
    if from < upTo { WalkSkips(text, spans, from + 1, upTo); }
  }

  /** The walk over the `k`-th span and the stretch before it. */
  lemma WalkOver(text: string, spans: seq<Span>, k: nat, from: nat)
    requires k < |spans| && AllFit(spans, |text|) && Apart(spans)
    requires from <= spans[k].start && (k > 0 ==> from == spans[k - 1].end)
    ensures Walk(text, spans, from)
            == text[from..spans[k].start] + TOKEN + Walk(text, spans, spans[k].end)
  {
    var s := spans[k];
    forall i: nat | from <= i < s.start ensures !Covered(spans, i) && !Begins(spans, i) {
      forall j | 0 <= j < |spans| ensures !Covers(spans[j], i) && spans[j].start != i { }
    }
    WalkCopies(text, spans, from, s.start);
    assert Begins(spans, s.start);
    forall i: nat | s.start + 1 <= i < s.end ensures Covered(spans, i) && !Begins(spans, i) {
      assert Covers(spans[k], i);
      forall j | 0 <= j < |spans| ensures spans[j].start != i { }
    }
    WalkSkips(text, spans, s.start + 1, s.end);
    Regroup(text[from..s.start], TOKEN, Walk(text, spans, s.end));
  }

  lemma WalkEnds(text: string, spans: seq<Span>, from: nat)
    requires from <= |text| && AllFit(spans, |text|) && forall k :: 0 <= k < |spans| ==> spans[k].end <= from
    ensures Walk(text, spans, from) == text[from..]
  {
    WalkCopies(text, spans, from, |text|);
    assert text[from..|text|] == text[from..] && Walk(text, spans, |text|) == "";
  }

  /** `redact_private_host_paths`: the kept stretches, a token between any two. */
  method Redact(text: string, spans: seq<Span>) returns (out: string)
    requires AllFit(spans, |text|) && Apart(spans)
    ensures out == Walk(text, spans, 0)
  {
    hide Walk;
    out := "";
    var start: nat := 0;
    for k := 0 to |spans|
      invariant start <= |text| && start == (if k == 0 then 0 else spans[k - 1].end)
      invariant k < |spans| ==> start <= spans[k].start
      invariant out + Walk(text, spans, start) == Walk(text, spans, 0)
    {
      WalkOver(text, spans, k, start);
      var stretch := text[start..spans[k].start] + TOKEN;
      Regroup(out, stretch, Walk(text, spans, spans[k].end));
      out := out + stretch;
      start := spans[k].end;
    }
    WalkEnds(text, spans, start);
    out := out + text[start..];
  }

  /** The characters of `text` from `from` on that no span covers, in order. */
  ghost function Uncovered(text: string, spans: seq<Span>, from: nat): string
    requires from <= |text|
    decreases |text| - from
  {
    if from == |text| then ""
    else (if Covered(spans, from) then "" else [text[from]]) + Uncovered(text, spans, from + 1)
  }

  function Concat(parts: seq<string>): string {
    if parts == [] then "" else parts[0] + Concat(parts[1..])
  }

  lemma {:induction false} UncoveredRun(text: string, spans: seq<Span>, from: nat, upTo: nat)
    requires from <= upTo <= |text| && forall i: nat :: from <= i < upTo ==> !Covered(spans, i)
    ensures Uncovered(text, spans, from) == text[from..upTo] + Uncovered(text, spans, upTo)
    decreases |text| - from
  {
    hide Covered;
    if from == upTo {
      assert text[from..upTo] == "";
    } else {
      UncoveredRun(text, spans, from + 1, upTo);
      var head, middle := [text[from]], text[from + 1..upTo];
      assert text[from..upTo] == head + middle;
      assert (head + middle) + Uncovered(text, spans, upTo) == head + (middle + Uncovered(text, spans, upTo));
    }
  }

  lemma {:induction false} CoveredRun(text: string, spans: seq<Span>, from: nat, upTo: nat)
    requires from <= upTo <= |text| && forall i: nat :: from <= i < upTo ==> Covered(spans, i)
    ensures Uncovered(text, spans, from) == Uncovered(text, spans, upTo)
    decreases |text| - from
  {
    hide Covered;
    if from < upTo { CoveredRun(text, spans, from + 1, upTo); }
  }

  lemma {:induction false} UncoveredTail(text: string, spans: seq<Span>, from: nat)
    requires spans != [] && Apart(spans) && AllFit(spans, |text|) && spans[0].end <= from <= |text|
    ensures Uncovered(text, spans, from) == Uncovered(text, spans[1..], from)
    decreases |text| - from
  {
    hide Covered, Apart, AllFit;
    if from < |text| {
      UncoveredTail(text, spans, from + 1);
      CoveredTail(spans, from);
    }
  }

  lemma CoveredTail(spans: seq<Span>, i: nat)
    requires spans != [] && spans[0].end <= i
    ensures Covered(spans, i) <==> Covered(spans[1..], i)
  {
    if Covered(spans, i) {
      var k :| 0 <= k < |spans| && Covers(spans[k], i);
      assert spans[1..][k - 1] == spans[k];
    }
    if Covered(spans[1..], i) {
      var k :| 0 <= k < |spans| - 1 && Covers(spans[1..][k], i);
      assert spans[k + 1] == spans[1..][k];
    }
  }

  /** The output keeps exactly the characters outside the spans, in order, with one
      token between any two stretches, that is, one for each span. */
  ghost predicate KeepsTheRest(text: string, spans: seq<Span>, from: nat, out: string) {
    && from <= |text| && AllFit(spans, |text|) && Apart(spans) && (spans != [] ==> from <= spans[0].start)
    && out == JoinParts(Kept(text, spans, from))
    && Concat(Kept(text, spans, from)) == Uncovered(text, spans, from)
  }

  lemma {:induction false} RedactionKeepsTheRest(text: string, spans: seq<Span>, from: nat)
    requires from <= |text| && AllFit(spans, |text|) && Apart(spans)
    requires spans != [] ==> from <= spans[0].start
    ensures KeepsTheRest(text, spans, from, Walk(text, spans, from))
    decreases |spans|
  {
    hide Walk, Uncovered;
    if spans == [] {
      UncoveredRun(text, spans, from, |text|);
      WalkEnds(text, spans, from);
      UncoveredEnd(text, spans);
      assert Concat([text[from..]]) == text[from..] + Concat([]);
      assert text[from..|text|] == text[from..];
    } else {
      var s, rest := spans[0], spans[1..];
      RedactionKeepsTheRest(text, rest, s.end);
      forall i | from <= i < s.start ensures !Covered(spans, i) {
        forall k | 0 <= k < |spans| ensures !Covers(spans[k], i) { }
      }
      UncoveredRun(text, spans, from, s.start);
      forall i | s.start <= i < s.end ensures Covered(spans, i) { assert Covers(spans[0], i); }
      CoveredRun(text, spans, s.start, s.end);
      UncoveredTail(text, spans, s.end);
      WalkOver(text, spans, 0, from);
      WalkTail(text, spans, s.end);
      var parts := Kept(text, spans, from);
      assert parts[1..] == Kept(text, rest, s.end);
    }
  }

  lemma UncoveredEnd(text: string, spans: seq<Span>)
    ensures Uncovered(text, spans, |text|) == ""
  { }

  lemma {:induction false} WalkTail(text: string, spans: seq<Span>, from: nat)
    requires spans != [] && Apart(spans) && AllFit(spans, |text|) && spans[0].end <= from <= |text|
    ensures Walk(text, spans, from) == Walk(text, spans[1..], from)
    decreases |text| - from
  {
    hide Covered, Apart;
    if from < |text| {
      WalkTail(text, spans, from + 1);
      CoveredTail(spans, from);
      BeginsTail(spans, from);
      hide Begins;
    }
  }

  lemma BeginsTail(spans: seq<Span>, i: nat)
    requires spans != [] && spans[0].start < i
    ensures Begins(spans, i) <==> Begins(spans[1..], i)
  {
    assert spans == [spans[0]] + spans[1..];
  }

  predicate HasEscape(text: string) {
    exists i :: 0 <= i < |text| && EscapeAt(text, i).Some?
  }

  /** When the whole text is redacted: a scan gives up, or there are too many leading
      paths, or one is everything; with escaped separators, also when the text is too
      long to decode. */
  ghost predicate RedactsAll(g: Grammar, n: nat, escaped: bool, inner: Grammar, m: nat)
    requires Sound(g, n) && Sound(inner, m)
  {
    || GivesUp(g, n) || |LeadingStarts(g, n)| > MAX_SPANS || WholePath(g, n)
    || (escaped
        && (|| n > MAX_VIEW_CHARACTERS || GivesUp(inner, m) || WholePath(inner, m)
            || |LeadingStarts(g, n)| + |LeadingStarts(inner, m)| > MAX_SPANS))
  }

  /** Character `x` lies in a leading path, or stands for a decoded character that
      does. */
  ghost predicate Private(
    g: Grammar, n: nat, escaped: bool, inner: Grammar, sources: seq<Span>, x: nat)
  {
    || InLeading(g, n, x)
    || (escaped && exists j: nat :: j < |sources| && InLeading(inner, |sources|, j) && Covers(sources[j], x))
  }

  /** `redact_private_host_paths` end to end: the output is the text with a token
      for each span.  Unless everything is redacted, the characters redacted are
      exactly the private ones; and no character where an exposed path begins -
      literally or through an escaped separator - is kept. */
  method RedactPrivateHostPaths(text: string, grammar: string -> Grammar)
    returns (out: string, spans: seq<Span>, gaveUp: bool, decoded: string, sources: seq<Span>)
    requires forall t: string :: Sound(grammar(t), |t|)
    ensures AllFit(spans, |text|) && Apart(spans)
    ensures Tiles(sources, |text|) && Decodes(text, decoded, sources)
    ensures out == Walk(text, spans, 0)
    ensures KeepsTheRest(text, spans, 0, out)
    ensures gaveUp <==> RedactsAll(grammar(text), |text|, HasEscape(text), grammar(decoded), |decoded|)
    ensures gaveUp ==> spans == Whole(|text|)
    ensures !gaveUp ==>
              forall x: nat :: Covered(spans, x) <==>
                Private(grammar(text), |text|, HasEscape(text), grammar(decoded), sources, x)
    ensures forall i: nat :: i < |text| && Exposed(grammar(text), i) ==> Covered(spans, i)
    ensures HasEscape(text) ==>
              forall j: nat, i: nat :: j < |sources| && Exposed(grammar(decoded), j) && Covers(sources[j], i) ==>
                Covered(spans, i)
  {
    hide Leading, Exposed, Covered, GivesUp, LeadingStarts, WholePath, InLeading, Ascending, HasEscape;
    hide Apart, Tiles, Decodes, Reports, Private, MappedCovers, Sound, Walk, KeepsTheRest;
    var literal := LiteralSpans(|text|, grammar(text));
    decoded, sources := SeparatorView(text);
    var inner := LiteralSpans(|decoded|, grammar(decoded));
    spans, gaveUp := PrivateSpans(|text|, literal, HasEscape(text), sources, inner);
    ScanFacts(grammar(text), |text|, literal);
    ScanFacts(grammar(decoded), |decoded|, inner);
    EmptyGivesNothing(grammar(text), text);
    if gaveUp {
      WholeCovers(|text|, sources);
    } else {
      forall x: nat
        ensures Covered(spans, x) <==>
          Private(grammar(text), |text|, HasEscape(text), grammar(decoded), sources, x)
      { PrivateIsReported(grammar(text), |text|, literal.value, HasEscape(text), grammar(decoded), sources, inner, x); }
    }
    ExposedIsRedacted(grammar(text), |text|, HasEscape(text), grammar(decoded), sources, spans, gaveUp);
    out := Redact(text, spans);
    RedactionKeepsTheRest(text, spans, 0);
  }

  /** What a scan result says of its grammar. */
  lemma ScanFacts(g: Grammar, n: nat, r: Option<seq<Span>>)
    requires Sound(g, n) && (r.Some? ==> AllFit(r.value, n) && Ascending(r.value) && Reports(g, r.value, n))
    ensures r.Some? ==> |r.value| == |LeadingStarts(g, n)| && (Span(0, n) in r.value <==> WholePath(g, n))
  {
    hide Leading, Sound, LeadingStarts, WholePath, Ascending, Reports;
    if r.Some? {
      ReportsCount(g, r.value, n);
      ReportsWhole(g, r.value, n);
    }
  }

  lemma EmptyGivesNothing(g: Grammar, text: string)
    requires Sound(g, |text|)
    ensures text == "" ==>
              !GivesUp(g, 0) && |LeadingStarts(g, 0)| == 0 && !WholePath(g, 0) && !HasEscape(text)
  {
    if text == "" { assert LeadingStarts(g, 0) == {}; }
  }

  lemma WholeCovers(n: nat, sources: seq<Span>)
    requires Tiles(sources, n)
    ensures forall i: nat :: i < n ==> Covered(Whole(n), i)
    ensures forall j: nat, i: nat :: j < |sources| && Covers(sources[j], i) ==> i < n
  {
    forall i: nat | i < n ensures Covered(Whole(n), i) { assert Covers(Whole(n)[0], i); }
    forall j: nat, i: nat | j < |sources| && Covers(sources[j], i) ensures i < n {
      if j < |sources| - 1 { TilesOrdered(sources, n, j, |sources| - 1); }
    }
  }

  lemma PrivateIsReported(
    g: Grammar, n: nat, literal: seq<Span>, escaped: bool, inner: Grammar, sources: seq<Span>,
    decoded: Option<seq<Span>>, x: nat)
    requires Reports(g, literal, n)
    requires escaped ==> decoded.Some? && Reports(inner, decoded.value, |sources|)
    ensures Private(g, n, escaped, inner, sources, x) <==>
            Covered(literal, x) || (escaped && MappedCovers(decoded.value, sources, x))
  {
    hide Leading, Covered, InLeading, Reports;
    ReportsCover(g, literal, n, x);
    if escaped {
      forall j: nat ensures Covered(decoded.value, j) <==> InLeading(inner, |sources|, j) {
        ReportsCover(inner, decoded.value, |sources|, j);
      }
    }
  }

  lemma ExposedIsRedacted(
    g: Grammar, n: nat, escaped: bool, inner: Grammar, sources: seq<Span>, spans: seq<Span>, gaveUp: bool)
    requires Sound(g, n) && Sound(inner, |sources|) && Tiles(sources, n)
    requires gaveUp ==> spans == Whole(n)
    requires !gaveUp ==> forall x: nat :: Covered(spans, x) <==> Private(g, n, escaped, inner, sources, x)
    ensures forall i: nat :: i < n && Exposed(g, i) ==> Covered(spans, i)
    ensures escaped ==>
              forall j: nat, i: nat :: j < |sources| && Exposed(inner, j) && Covers(sources[j], i) ==> Covered(spans, i)
  {
    hide Leading, Covered, InLeading, Exposed, Sound, Tiles;
    if gaveUp {
      WholeCovers(n, sources);
    } else {
      forall i: nat | i < n && Exposed(g, i) ensures Covered(spans, i) { ExposedBeginsInLeading(g, n, i); }
      if escaped {
        forall j: nat, i: nat | j < |sources| && Exposed(inner, j) && Covers(sources[j], i) ensures Covered(spans, i) {
          ExposedBeginsInLeading(inner, |sources|, j);
          assert Private(g, n, escaped, inner, sources, i);
        }
      }
    }
  }
}
