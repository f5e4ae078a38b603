/** Canonical ASCII JSON: the encoder's text, and the counter that predicts its
    length without building it. */
module CanonicalSize {
  import opened Common
  import opened Json

  // ------------------------------------------------------------- the encoder

  function Ascii(s: string): (t: Text)
    ensures |t| == |s|
  {
    seq(|s|, k requires 0 <= k < |s| => s[k] as int as CodePoint)
  }

  function HexDigit(d: nat): CodePoint
    requires d < 16
  {
    if d < 10 then 48 + d else 87 + d
  }

  /** A backslash, a `u` and four hexadecimal digits. */
  function UnicodeEscape(unit: nat): (t: Text)
    requires unit < 0x10000
    ensures |t| == 6
  {
    [92, 117, HexDigit(unit / 4096), HexDigit(unit / 256 % 16), HexDigit(unit / 16 % 16), HexDigit(unit % 16)]
  }

  predicate HasShortEscape(c: CodePoint) {
    c == 34 || c == 92 || c == 8 || c == 12 || c == 10 || c == 13 || c == 9
  }

  function ShortEscape(c: CodePoint): CodePoint
    requires HasShortEscape(c)
  {
    if c == 8 then 98 else if c == 12 then 102 else if c == 10 then 110
    else if c == 13 then 114 else if c == 9 then 116 else c
  }

  /** One character inside a string, as section 7 of RFC 8259 allows: printable
      ASCII stands for itself, everything else is escaped, astral characters as a
      surrogate pair.  U+007F is not printable. */
  function Escape(c: CodePoint): Text {
    if HasShortEscape(c) then [92, ShortEscape(c)]
    else if 0x20 <= c <= 0x7E then [c]
    else if c <= 0xFFFF then UnicodeEscape(c)
    else UnicodeEscape(0xD800 + (c - 0x10000) / 1024) + UnicodeEscape(0xDC00 + (c - 0x10000) % 1024)
  }

  // How section 7 of RFC 8259 lets one character be spelled, in printable ASCII.

  function HexValue(c: CodePoint): Option<nat> {
    if 48 <= c <= 57 then Some(c - 48)
    else if 65 <= c <= 70 then Some(c - 55)
    else if 97 <= c <= 102 then Some(c - 87)
    else None
  }

  ghost predicate IsUnit(t: Text, unit: nat) {
    && |t| == 6 && t[0] == 92 && t[1] == 117
    && (forall k :: 2 <= k < 6 ==> HexValue(t[k]).Some?)
    && unit == ((HexValue(t[2]).value * 16 + HexValue(t[3]).value) * 16 + HexValue(t[4]).value) * 16
               + HexValue(t[5]).value
  }

  ghost predicate IsPair(t: Text, c: CodePoint) {
    |t| == 12 && exists high: nat, low: nat ::
      && IsUnit(t[..6], high) && IsUnit(t[6..], low)
      && 0xD800 <= high < 0xDC00 && 0xDC00 <= low < 0xE000
      && c == 0x10000 + (high - 0xD800) * 1024 + (low - 0xDC00)
  }

  const SHORT_FORMS: seq<(CodePoint, CodePoint)> :=
    [(34, 34), (92, 92), (47, 47), (98, 8), (102, 12), (110, 10), (114, 13), (116, 9)]

  ghost predicate Spells(t: Text, c: CodePoint) {
    || (t == [c] && 0x20 <= c <= 0x7E && c != 34 && c != 92)
    || (|t| == 2 && t[0] == 92 && (t[1], c) in SHORT_FORMS)
    || IsUnit(t, c)
    || IsPair(t, c)
  }

  lemma HexReads(d: nat)
    requires d < 16
    ensures HexValue(HexDigit(d)) == Some(d)
  { }

  lemma FourDigits(unit: nat)
    requires unit < 0x10000
    ensures unit / 4096 < 16
    ensures unit == ((unit / 4096 * 16 + unit / 256 % 16) * 16 + unit / 16 % 16) * 16 + unit % 16
  {
    var x, y := unit / 16, unit / 256;
    assert y == x / 16 && unit / 4096 == y / 16;
    assert unit == x * 16 + unit % 16 && x == y * 16 + x % 16 && y == y / 16 * 16 + y % 16;
  }

  lemma EscapesAsUnit(unit: nat)
    requires unit < 0x10000
    ensures IsUnit(UnicodeEscape(unit), unit)
  {
    hide HexDigit, HexValue;
    FourDigits(unit);
    HexReads(unit / 4096);
    HexReads(unit / 256 % 16);
    HexReads(unit / 16 % 16);
    HexReads(unit % 16);
  }

  lemma ShortForms(c: CodePoint)
    ensures HasShortEscape(c) ==> (ShortEscape(c), c) in SHORT_FORMS
    ensures forall x :: (x, c) in SHORT_FORMS ==> HasShortEscape(c) || c == 47
  {
    assert SHORT_FORMS[0] == (34, 34) && SHORT_FORMS[1] == (92, 92) && SHORT_FORMS[3] == (98, 8)
           && SHORT_FORMS[4] == (102, 12) && SHORT_FORMS[5] == (110, 10) && SHORT_FORMS[6] == (114, 13)
           && SHORT_FORMS[7] == (116, 9);
  }

  /** The encoder spells a character, and nothing in printable ASCII spells it shorter. */
  lemma EscapeIsShortest(c: CodePoint)
    ensures Spells(Escape(c), c)
    ensures forall t :: Spells(t, c) ==> |t| >= |Escape(c)|
  {
    hide UnicodeEscape, IsUnit;
    ShortForms(c);
    if c <= 0xFFFF {
      EscapesAsUnit(c);
    } else {
      var high, low := 0xD800 + (c - 0x10000) / 1024, 0xDC00 + (c - 0x10000) % 1024;
      EscapesAsUnit(high);
      EscapesAsUnit(low);
      var t := Escape(c);
      assert t[..6] == UnicodeEscape(high) && t[6..] == UnicodeEscape(low);
      assert IsPair(t, c);
    }
    forall t | Spells(t, c) ensures |t| >= |Escape(c)| {
      if IsUnit(t, c) { UnitsAreSmall(t, c); }
    }
  }

  lemma HexIsSmall(c: CodePoint)
    ensures HexValue(c).Some? ==> HexValue(c).value < 16
  { }

  lemma UnitsAreSmall(t: Text, unit: nat)
    requires IsUnit(t, unit)
    ensures |t| == 6 && unit < 0x10000
  {
    hide HexValue;
    HexIsSmall(t[2]);
    HexIsSmall(t[3]);
    HexIsSmall(t[4]);
    HexIsSmall(t[5]);
  }

  function EscapeAll(s: Text): Text {
    if s == [] then [] else Escape(s[0]) + EscapeAll(s[1..])
  }

  function Quoted(s: Text): Text { [34] + EscapeAll(s) + [34] }

  function Digits(n: nat): Text {
    if n < 10 then [48 + n] else Digits(n / 10) + [48 + n % 10]
  }

  function IntText(i: int): Text {
    if i < 0 then [45] + Digits(-i) else Digits(i)
  }

  datatype Field = Field(key: Text, text: Text)

  predicate KeyLess(a: Text, b: Text) {
    if b == [] then false
    else if a == [] then true
    else a[0] < b[0] || (a[0] == b[0] && KeyLess(a[1..], b[1..]))
  }

  function Insert(f: Field, fs: seq<Field>): seq<Field> {
    if fs == [] || KeyLess(f.key, fs[0].key) then [f] + fs else [fs[0]] + Insert(f, fs[1..])
  }

  /** `sort_keys=True`. */
  function SortFields(fs: seq<Field>): seq<Field> {
    if fs == [] then [] else Insert(fs[0], SortFields(fs[1..]))
  }

  function JoinTexts(ts: seq<Text>): Text {
    if ts == [] then [] else if |ts| == 1 then ts[0] else ts[0] + [44] + JoinTexts(ts[1..])
  }

  function FieldText(f: Field): Text { Quoted(f.key) + [58] + f.text }

  function JoinFields(fs: seq<Field>): Text {
    JoinTexts(seq(|fs|, k requires 0 <= k < |fs| => FieldText(fs[k])))
  }

  /** The canonical text of a value; how a float is written is a parameter. */
  function Canonical(j: Json, floatText: real -> Text): Text
    decreases j
  {
    match j
    case Null => Ascii("null")
    case Bool(b) => if b then Ascii("true") else Ascii("false")
    case Int(i) => IntText(i)
    case Float(x) => floatText(x)
    case Str(s) => Quoted(s)
    case Arr(items) => [91] + JoinTexts(ItemTexts(j, |items|, floatText)) + [93]
    case Obj(members) => [123] + JoinFields(SortFields(MemberFields(j, |members|, floatText))) + [125]
  }

  function ItemTexts(j: Json, n: nat, floatText: real -> Text): (ts: seq<Text>)
    requires j.Arr? && n <= |j.items|
    ensures |ts| == n
    decreases j, n
  {
    if n == 0 then []
    else ItemTexts(j, n - 1, floatText) + [(assert j.items[n - 1] < j; Canonical(j.items[n - 1], floatText))]
  }

  function MemberFields(j: Json, n: nat, floatText: real -> Text): (fs: seq<Field>)
    requires j.Obj? && n <= |j.members|
    ensures |fs| == n
    decreases j, n
  {
    if n == 0 then []
    else
      assert j.members[n - 1].value < j;
      MemberFields(j, n - 1, floatText) + [Field(j.members[n - 1].key, Canonical(j.members[n - 1].value, floatText))]
  }

  // ------------------------------------------------------------- the counter

  /** What the counter charges for one character. */
  function CharSize(c: CodePoint): nat {
    if HasShortEscape(c) then 2
    else if c < 0x20 then 6
    else if c < 0x80 then 1
    else if c <= 0xFFFF then 6
    else 12
  }

  function CharsSize(s: Text, n: nat): nat
    requires n <= |s|
  {
    if n == 0 then 0 else CharsSize(s, n - 1) + CharSize(s[n - 1])
  }

  function StrSize(s: Text): nat { 2 + CharsSize(s, |s|) }

  function Separators(n: nat): nat { if n == 0 then 0 else n - 1 }

  /** What the counter charges for a value itself, without its children. */
  function OwnSize(j: Json, floatText: real -> Text): nat {
    match j
    case Null => 4
    case Bool(b) => if b then 4 else 5
    case Int(i) => |IntText(i)|
    case Float(x) => |floatText(x)|
    case Str(s) => StrSize(s)
    case Arr(items) => 2 + Separators(|items|)
    case Obj(members) => 2 + Separators(|members|) + |members|
  }

  function SizeOf(j: Json, floatText: real -> Text): nat
    decreases j
  {
    match j
    case Arr(items) => OwnSize(j, floatText) + ItemsSize(j, |items|, floatText)
    case Obj(members) => OwnSize(j, floatText) + FieldsSize(j, |members|, floatText)
    case _ => OwnSize(j, floatText)
  }

  function ItemsSize(j: Json, n: nat, floatText: real -> Text): nat
    requires j.Arr? && n <= |j.items|
    decreases j, n
  {
    if n == 0 then 0
    else ItemsSize(j, n - 1, floatText) + (assert j.items[n - 1] < j; SizeOf(j.items[n - 1], floatText))
  }

  function FieldsSize(j: Json, n: nat, floatText: real -> Text): nat
    requires j.Obj? && n <= |j.members|
    decreases j, n
  {
    if n == 0 then 0
    else
      assert j.members[n - 1].value < j;
      FieldsSize(j, n - 1, floatText) + StrSize(j.members[n - 1].key) + SizeOf(j.members[n - 1].value, floatText)
  }

  // ------------------------------------------------ the iterator-stack traversal

  /** What iterating a container yields: items, or each key followed by its value. */
  function Interleaved(members: seq<Member>): seq<Json> {
    if members == [] then [] else [Str(members[0].key), members[0].value] + Interleaved(members[1..])
  }

  function Children(j: Json): seq<Json> {
    match j
    case Arr(items) => items
    case Obj(members) => Interleaved(members)
    case _ => []
  }

  function ListSize(js: seq<Json>, floatText: real -> Text): nat {
    if js == [] then 0 else SizeOf(js[0], floatText) + ListSize(js[1..], floatText)
  }

  function StackSize(stack: seq<seq<Json>>, floatText: real -> Text): nat {
    if stack == [] then 0
    else StackSize(stack[..|stack| - 1], floatText) + ListSize(stack[|stack| - 1], floatText)
  }

  lemma {:induction false} ItemsRest(j: Json, k: nat, floatText: real -> Text)
    requires j.Arr? && k <= |j.items|
    ensures ItemsSize(j, k, floatText) + ListSize(j.items[k..], floatText) == ItemsSize(j, |j.items|, floatText)
    decreases |j.items| - k
  {
    hide SizeOf;
    if k < |j.items| {
      ItemsRest(j, k + 1, floatText);
      assert j.items[k..][1..] == j.items[k + 1..];
    }
  }

  lemma {:induction false} FieldsRest(j: Json, k: nat, floatText: real -> Text)
    requires j.Obj? && k <= |j.members|
    ensures FieldsSize(j, k, floatText) + ListSize(Interleaved(j.members[k..]), floatText)
            == FieldsSize(j, |j.members|, floatText)
    decreases |j.members| - k
  {
    if k < |j.members| {
      FieldsRest(j, k + 1, floatText);
      var m := j.members[k];
      assert j.members[k..][1..] == j.members[k + 1..];
      var rest := Interleaved(j.members[k + 1..]);
      var js := [Str(m.key), m.value] + rest;
      assert js[1..] == [m.value] + rest && js[1..][1..] == rest;
      assert SizeOf(Str(m.key), floatText) == StrSize(m.key);
    }
  }

  /** A value's size is its own plus its children's. */
  lemma SizeParts(j: Json, floatText: real -> Text)
    ensures SizeOf(j, floatText) == OwnSize(j, floatText) + ListSize(Children(j), floatText)
  {
    match j
    case Arr(items) =>
      ItemsRest(j, 0, floatText);
      assert items[0..] == items;
    case Obj(members) =>
      FieldsRest(j, 0, floatText);
      assert members[0..] == members;
    case _ =>
  }

  function Nodes(j: Json): (n: nat)
    ensures n >= 1
    decreases j
  {
    match j
    case Arr(items) => 1 + ItemNodes(j, |items|)
    case Obj(members) => 1 + MemberNodes(j, |members|)
    case _ => 1
  }

  function ItemNodes(j: Json, n: nat): nat
    requires j.Arr? && n <= |j.items|
    decreases j, n
  {
    if n == 0 then 0 else ItemNodes(j, n - 1) + (assert j.items[n - 1] < j; Nodes(j.items[n - 1]))
  }

  function MemberNodes(j: Json, n: nat): nat
    requires j.Obj? && n <= |j.members|
    decreases j, n
  {
    if n == 0 then 0 else MemberNodes(j, n - 1) + 1 + (assert j.members[n - 1].value < j; Nodes(j.members[n - 1].value))
  }

  function ListNodes(js: seq<Json>): nat {
    if js == [] then 0 else Nodes(js[0]) + ListNodes(js[1..])
  }

  function StackNodes(stack: seq<seq<Json>>): nat {
    if stack == [] then 0 else StackNodes(stack[..|stack| - 1]) + 2 * ListNodes(stack[|stack| - 1]) + 1
  }

  lemma {:induction false} ItemNodesRest(j: Json, k: nat)
    requires j.Arr? && k <= |j.items|
    ensures ItemNodes(j, k) + ListNodes(j.items[k..]) == ItemNodes(j, |j.items|)
    decreases |j.items| - k
  {
    hide Nodes;
    if k < |j.items| {
      ItemNodesRest(j, k + 1);
      assert j.items[k..][1..] == j.items[k + 1..];
    }
  }

  lemma ListNodesPair(a: Json, b: Json, rest: seq<Json>)
    ensures ListNodes([a, b] + rest) == Nodes(a) + Nodes(b) + ListNodes(rest)
  {
    hide Nodes;
    var js := [a, b] + rest;
    assert js[1..] == [b] + rest && js[1..][1..] == rest;
  }

  lemma {:induction false} MemberNodesRest(j: Json, k: nat)
    requires j.Obj? && k <= |j.members|
    ensures MemberNodes(j, k) + ListNodes(Interleaved(j.members[k..])) == MemberNodes(j, |j.members|)
    decreases |j.members| - k
  {
    if k < |j.members| {
      MemberNodesRest(j, k + 1);
      var m, rest := j.members[k], Interleaved(j.members[k + 1..]);
      assert j.members[k..][1..] == j.members[k + 1..];
      ListNodesPair(Str(m.key), m.value, rest);
      assert Nodes(Str(m.key)) == 1;
      hide ListNodes, Nodes;
    }
  }

  lemma NodeParts(j: Json)
    ensures Nodes(j) == 1 + ListNodes(Children(j))
  {
    match j
    case Arr(items) =>
      ItemNodesRest(j, 0);
      assert items[0..] == items;
    case Obj(members) =>
      MemberNodesRest(j, 0);
      assert members[0..] == members;
    case _ =>
  }

  lemma StackPush(stack: seq<seq<Json>>, js: seq<Json>, floatText: real -> Text)
    ensures StackSize(stack + [js], floatText) == StackSize(stack, floatText) + ListSize(js, floatText)
    ensures StackNodes(stack + [js]) == StackNodes(stack) + 2 * ListNodes(js) + 1
  {
    assert (stack + [js])[..|stack|] == stack;
  }

  lemma {:induction false} CharsGrow(s: Text, a: nat, b: nat)
    requires a <= b <= |s|
    ensures CharsSize(s, a) <= CharsSize(s, b)
  {
    if a < b { CharsGrow(s, a, b - 1); }
  }

  /** Charge one string, giving up as soon as the limit is passed. */
  method ChargeString(s: Text, size0: nat, limit: nat) returns (r: Option<nat>)
    ensures r == if size0 + StrSize(s) <= limit || s == [] then Some(size0 + StrSize(s)) else None
  {
    hide CharSize;
    var size := size0 + 2;
    for k := 0 to |s|
      invariant size == size0 + 2 + CharsSize(s, k)
      invariant k > 0 ==> size <= limit
    {
      size := size + CharSize(s[k]);
      CharsGrow(s, k + 1, |s|);
      if size > limit { return None; }
    }
    r := Some(size);
  }

  /** `_bounded_canonical_json_size`: the stack of iterators returns the recursive
      size when it is within the limit and nothing otherwise. */
  method BoundedCanonicalSize(value: Json, limit: nat, floatText: real -> Text) returns (r: Option<nat>)
    ensures r == if SizeOf(value, floatText) <= limit then Some(SizeOf(value, floatText)) else None
  {
    hide SizeOf, Nodes, StackSize, StackNodes, ListSize, ListNodes, Children, StrSize;
    var size: nat := 0;
    var pending: seq<seq<Json>> := [[value]];
    StackOfOne(value, floatText);
    while pending != []
      invariant size + StackSize(pending, floatText) == SizeOf(value, floatText)
      invariant size <= limit
      decreases StackNodes(pending)
    {
      var below, top := pending[..|pending| - 1], pending[|pending| - 1];
      assert pending == below + [top];
      StackPush(below, top, floatText);
      if top == [] {
        EmptyList(floatText);
        pending := below;
        continue;
      }
      var item := top[0];
      TakeFirst(top, floatText);
      SizeParts(item, floatText);
      NodeParts(item);
      StackPush(below, top[1..], floatText);
      pending := below + [top[1..]];
      if item.Str? {
        var charged := ChargeString(item.s, size, limit);
        if charged.None? { return None; }
        size := charged.value;
      } else {
        size := size + OwnSize(item, floatText);
      }
      if item.Arr? || item.Obj? {
        StackPush(pending, Children(item), floatText);
        pending := pending + [Children(item)];
      } else {
        NoChildren(item, floatText);
      }
      if size > limit { return None; }
    }
    EmptyStack(floatText);
    r := Some(size);
  }

  lemma StackOfOne(value: Json, floatText: real -> Text)
    ensures StackSize([[value]], floatText) == SizeOf(value, floatText)
  {
    assert [[value]][..0] == [] && [value][1..] == [];
    assert ListSize([], floatText) == 0;
  }

  lemma EmptyList(floatText: real -> Text)
    ensures ListSize([], floatText) == 0 && ListNodes([]) == 0
  {
  }

  lemma EmptyStack(floatText: real -> Text)
    ensures StackSize([], floatText) == 0
  {
  }

  lemma TakeFirst(js: seq<Json>, floatText: real -> Text)
    requires js != []
    ensures ListSize(js, floatText) == SizeOf(js[0], floatText) + ListSize(js[1..], floatText)
    ensures ListNodes(js) == Nodes(js[0]) + ListNodes(js[1..])
  {
  }

  lemma NoChildren(j: Json, floatText: real -> Text)
    requires !j.Arr? && !j.Obj?
    ensures ListSize(Children(j), floatText) == 0 && ListNodes(Children(j)) == 0
  {
  }

  // ----------------------------------------------------- counter against text

  function Deletes(s: Text): nat {
    if s == [] then 0 else (if s[0] == 0x7F then 1 else 0) + Deletes(s[1..])
  }

  /** How many U+007F a value's strings and keys hold. */
  function DeletesIn(j: Json): nat
    decreases j
  {
    match j
    case Str(s) => Deletes(s)
    case Arr(items) => ItemDeletes(j, |items|)
    case Obj(members) => MemberDeletes(j, |members|)
    case _ => 0
  }

  function ItemDeletes(j: Json, n: nat): nat
    requires j.Arr? && n <= |j.items|
    decreases j, n
  {
    if n == 0 then 0 else ItemDeletes(j, n - 1) + (assert j.items[n - 1] < j; DeletesIn(j.items[n - 1]))
  }

  function MemberDeletes(j: Json, n: nat): nat
    requires j.Obj? && n <= |j.members|
    decreases j, n
  {
    if n == 0 then 0
    else
      assert j.members[n - 1].value < j;
      MemberDeletes(j, n - 1) + Deletes(j.members[n - 1].key) + DeletesIn(j.members[n - 1].value)
  }

  lemma EscapeLength(c: CodePoint)
    ensures |Escape(c)| == CharSize(c) + if c == 0x7F then 5 else 0
  {
  }

  lemma {:induction false} CharsFront(s: Text, n: nat)
    requires 0 < n <= |s|
    ensures CharsSize(s, n) == CharSize(s[0]) + CharsSize(s[1..], n - 1)
  {
    hide CharSize;
    if n > 1 { CharsFront(s, n - 1); }
  }

  lemma {:induction false} EscapeAllLength(s: Text)
    ensures |EscapeAll(s)| == CharsSize(s, |s|) + 5 * Deletes(s)
  {
    hide Escape, CharSize;
    if s != [] {
      EscapeLength(s[0]);
      EscapeAllLength(s[1..]);
      CharsFront(s, |s|);
    }
  }

  lemma QuotedLength(s: Text)
    ensures |Quoted(s)| == StrSize(s) + 5 * Deletes(s)
  {
    EscapeAllLength(s);
  }

  function TotalLength(ts: seq<Text>): nat {
    if ts == [] then 0 else TotalLength(ts[..|ts| - 1]) + |ts[|ts| - 1]|
  }

  lemma {:induction false} TotalFront(ts: seq<Text>)
    requires ts != []
    ensures TotalLength(ts) == |ts[0]| + TotalLength(ts[1..])
  {
    if |ts| > 1 {
      TotalFront(ts[..|ts| - 1]);
      assert ts[1..][..|ts| - 2] == ts[..|ts| - 1][1..];
    }
  }

  lemma {:induction false} JoinLength(ts: seq<Text>)
    ensures |JoinTexts(ts)| == TotalLength(ts) + Separators(|ts|)
  {
    if ts != [] {
      TotalFront(ts);
      if |ts| > 1 { JoinLength(ts[1..]); }
    }
  }

  function FieldsLength(fs: seq<Field>): nat {
    if fs == [] then 0 else |FieldText(fs[0])| + FieldsLength(fs[1..])
  }

  lemma {:induction false} InsertLength(f: Field, fs: seq<Field>)
    ensures FieldsLength(Insert(f, fs)) == |FieldText(f)| + FieldsLength(fs)
    ensures |Insert(f, fs)| == |fs| + 1
  {
    hide FieldText, KeyLess;
    if fs == [] || KeyLess(f.key, fs[0].key) {
      assert ([f] + fs)[1..] == fs;
    } else {
      InsertLength(f, fs[1..]);
      assert ([fs[0]] + Insert(f, fs[1..]))[1..] == Insert(f, fs[1..]);
    }
  }

  /** Sorting the members does not change how long they are together. */
  lemma {:induction false} SortLength(fs: seq<Field>)
    ensures FieldsLength(SortFields(fs)) == FieldsLength(fs) && |SortFields(fs)| == |fs|
  {
    hide FieldText, Insert;
    if fs != [] {
      SortLength(fs[1..]);
      InsertLength(fs[0], SortFields(fs[1..]));
    }
  }

  lemma {:induction false} FieldsTotal(fs: seq<Field>, ts: seq<Text>)
    requires |ts| == |fs| && forall k :: 0 <= k < |fs| ==> ts[k] == FieldText(fs[k])
    ensures TotalLength(ts) == FieldsLength(fs)
  {
    hide FieldText;
    if fs != [] {
      FieldsTotal(fs[1..], ts[1..]);
      TotalFront(ts);
    }
  }

  lemma JoinFieldsLength(fs: seq<Field>)
    ensures |JoinFields(fs)| == FieldsLength(fs) + Separators(|fs|)
  {
    hide FieldText;
    var ts := seq(|fs|, k requires 0 <= k < |fs| => FieldText(fs[k]));
    FieldsTotal(fs, ts);
    JoinLength(ts);
  }

  lemma {:induction false} FieldsLengthSnoc(fs: seq<Field>, f: Field)
    ensures FieldsLength(fs + [f]) == FieldsLength(fs) + |FieldText(f)|
  {
    hide FieldText;
    if fs == [] {
      assert fs + [f] == [f] && [f][1..] == [];
    } else {
      FieldsLengthSnoc(fs[1..], f);
      assert (fs + [f])[1..] == fs[1..] + [f];
    }
  }

  lemma {:induction false} ItemTextsLength(j: Json, n: nat, floatText: real -> Text)
    requires j.Arr? && n <= |j.items|
    ensures TotalLength(ItemTexts(j, n, floatText)) == ItemsSize(j, n, floatText) + 5 * ItemDeletes(j, n)
    decreases j, n
  {
    if n > 0 {
      ItemTextsLength(j, n - 1, floatText);
      assert j.items[n - 1] < j;
      CanonicalLength(j.items[n - 1], floatText);
      var ts := ItemTexts(j, n, floatText);
      assert ts[..n - 1] == ItemTexts(j, n - 1, floatText);
    }
  }

  lemma {:induction false} MemberFieldsLength(j: Json, n: nat, floatText: real -> Text)
    requires j.Obj? && n <= |j.members|
    ensures FieldsLength(MemberFields(j, n, floatText))
            == FieldsSize(j, n, floatText) + n + 5 * MemberDeletes(j, n)
    decreases j, n
  {
    if n > 0 {
      MemberFieldsLength(j, n - 1, floatText);
      var m := j.members[n - 1];
      assert m.value < j;
      CanonicalLength(m.value, floatText);
      QuotedLength(m.key);
      FieldsLengthSnoc(MemberFields(j, n - 1, floatText), Field(m.key, Canonical(m.value, floatText)));
    }
  }

  /** The text is as long as the counter says, plus five for each U+007F: the
      counter takes it for a plain character, the encoder escapes it. */
  lemma {:induction false} CanonicalLength(j: Json, floatText: real -> Text)
    ensures |Canonical(j, floatText)| == SizeOf(j, floatText) + 5 * DeletesIn(j)
    decreases j
  {
    match j
    case Str(s) => QuotedLength(s);
    case Arr(items) =>
      ItemTextsLength(j, |items|, floatText);
      JoinLength(ItemTexts(j, |items|, floatText));
    case Obj(members) =>
      MemberFieldsLength(j, |members|, floatText);
      SortLength(MemberFields(j, |members|, floatText));
      JoinFieldsLength(SortFields(MemberFields(j, |members|, floatText)));
    case _ =>
  }

  /** So the counter is exact precisely on values without U+007F. */
  lemma CounterIsExact(j: Json, floatText: real -> Text)
    ensures SizeOf(j, floatText) == |Canonical(j, floatText)| <==> DeletesIn(j) == 0
  {
    hide SizeOf, Canonical, DeletesIn;
    CanonicalLength(j, floatText);
  }

  /** The smallest value it gets wrong. */
  lemma DeleteIsMiscounted(floatText: real -> Text)
    ensures var j := Str([0x7F]); SizeOf(j, floatText) == 3 && |Canonical(j, floatText)| == 8
  {
    var s: Text := [0x7F];
    assert s[1..] == [] && Deletes(s) == 1;
    assert CharsSize(s, 1) == 1;
    CanonicalLength(Str(s), floatText);
  }
}
