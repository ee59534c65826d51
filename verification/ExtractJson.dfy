/**
 Lenient extraction of a JSON object from a model's answer: the body of a json fence if there is one, else the first
 balanced braces, found by one scan that knows strings and escapes. Every character the scan looks at is ASCII, so
 scanning bytes and scanning characters are the same.
 */
module ExtractJson {
  import opened Prelude
  import opened Texts

  const FENCE: string := "```json"
  const FENCE_END: string := "```"

  // ----- The scan -----

  datatype Scanner = Scanner(depth: nat, inString: bool, escape: bool)

  function Advance(st: Scanner, c: char): Scanner {
    if st.escape then st.(escape := false)
    else if c == '\\' && st.inString then st.(escape := true)
    else if c == '"' then st.(inString := !st.inString)
    else if c == '{' && !st.inString then st.(depth := st.depth + 1)
    else if c == '}' && !st.inString then st.(depth := if st.depth > 0 then st.depth - 1 else 0)
    else st
  }

  /** Whether `c` is the brace that ends the object. */
  predicate Closes(st: Scanner, c: char) {
    !st.escape && !st.inString && c == '}' && st.depth <= 1
  }

  function Prepend(a: string, r: Option<string>): Option<string> {
    if r.Some? then Some(a + r.value) else None
  }

  /** The text up to and including the closing brace. */
  function Balanced(s: string, st: Scanner): Option<string> {
    if s == "" then None
    else if Closes(st, s[0]) then Some([s[0]])
    else Prepend([s[0]], Balanced(s[1..], Advance(st, s[0])))
  }

  function FromBrace(s: string): Option<string> {
    if s == "" then None else if s[0] == '{' then Some(s) else FromBrace(s[1..])
  }

  function Fence(raw: string): Option<string> {
    match Split(raw, FENCE)
    case None => None
    case Some((_, rest)) =>
      match Split(rest, FENCE_END)
      case None => None
      case Some((body, _)) => Some(body)
  }

  function Extract(raw: string): Option<string> {
    if Fence(raw).Some? then Some(Trim(Fence(raw).value))
    else
      match FromBrace(raw)
      case None => None
      case Some(text) => Balanced(text, Scanner(0, false, false))
  }

  lemma {:induction false} BalancedStep(text: string, i: nat, st: Scanner, whole: Option<string>)
    requires i < |text| && whole == Prepend(text[..i], Balanced(text[i..], st))
    ensures Closes(st, text[i]) ==> whole == Some(text[..i + 1])
    ensures !Closes(st, text[i]) ==> whole == Prepend(text[..i + 1], Balanced(text[i + 1..], Advance(st, text[i])))
  {
    assert text[i..][1..] == text[i + 1..];
    assert text[..i + 1] == text[..i] + [text[i]];
    var tail := Balanced(text[i + 1..], Advance(st, text[i]));
    if tail.Some? {
      assert text[..i] + ([text[i]] + tail.value) == text[..i] + [text[i]] + tail.value;
    }
  }

  method ExtractJsonText(raw: string) returns (r: Option<string>)
    ensures r == Extract(raw)
  {
    var fence := Split(raw, FENCE);
    if fence.Some? {
      var end := Split(fence.value.1, FENCE_END);
      if end.Some? {
        return Some(Trim(end.value.0));
      }
    }
    var start := FromBrace(raw);
    if start.None? {
      return None;
    }
    var text := start.value;
    var depth: nat := 0;
    var inString, escape := false, false;
    assert text[0..] == text;
    ghost var whole := Balanced(text, Scanner(0, false, false));
    assert whole.Some? ==> "" + whole.value == whole.value;
    for i := 0 to |text|
      invariant whole == Prepend(text[..i], Balanced(text[i..], Scanner(depth, inString, escape)))
    {
      BalancedStep(text, i, Scanner(depth, inString, escape), whole);
      var b := text[i];
      if escape {
        escape := false;
      } else if b == '\\' && inString {
        escape := true;
      } else if b == '"' {
        inString := !inString;
      } else if b == '{' && !inString {
        depth := depth + 1;
      } else if b == '}' && !inString {
        depth := if depth > 0 then depth - 1 else 0;
        if depth == 0 {
          return Some(text[..i + 1]);
        }
      }
    }
    return None;
  }

  // ----- Crossing a stretch of text -----

  /** The scanner after `s`, unless a closing brace ends the scan within it. */
  function Through(st: Scanner, s: string): (r: Option<Scanner>)
    ensures r.Some? && st.depth >= 1 ==> r.value.depth >= 1
    decreases |s|
  {
    if s == "" then Some(st)
    else if Closes(st, s[0]) then None
    else Through(Advance(st, s[0]), s[1..])
  }

  lemma {:induction false} ThroughConcat(st: Scanner, a: string, b: string)
    requires Through(st, a).Some?
    ensures Through(st, a + b) == Through(Through(st, a).value, b)
    decreases |a|
  {
    if a == "" {
      assert a + b == b;
    } else {
      assert (a + b)[1..] == a[1..] + b;
      ThroughConcat(Advance(st, a[0]), a[1..], b);
    }
  }

  lemma {:induction false} BalancedConcat(st: Scanner, a: string, b: string)
    requires Through(st, a).Some?
    ensures Balanced(a + b, st) == Prepend(a, Balanced(b, Through(st, a).value))
    decreases |a|
  {
    if a == "" {
      assert a + b == b;
      if Balanced(b, st).Some? {
        assert a + Balanced(b, st).value == Balanced(b, st).value;
      }
    } else {
      assert (a + b)[1..] == a[1..] + b;
      BalancedConcat(Advance(st, a[0]), a[1..], b);
      var tail := Balanced(b, Through(st, a).value);
      if tail.Some? {
        assert [a[0]] + (a[1..] + tail.value) == a + tail.value;
      }
    }
  }

  // ----- JSON texts (sections 2 to 7 of RFC 8259) -----

  /** White space between tokens. */
  predicate IsBlank(s: string) {
    forall c | c in s :: c == ' ' || c == '\t' || c == '\n' || c == '\r'
  }

  predicate IsDigits(s: string) {
    s != "" && forall c | c in s :: '0' <= c <= '9'
  }

  datatype Literal =
    | Null | True | False
    | Number(minus: bool, whole: string, fraction: Option<string>, exponent: Option<(char, string, string)>)

  predicate ValidLiteral(t: Literal) {
    t.Number? ==>
      && IsDigits(t.whole) && (|t.whole| > 1 ==> t.whole[0] != '0')
      && (t.fraction.Some? ==> IsDigits(t.fraction.value))
      && (t.exponent.Some? ==>
            var (e, sign, digits) := t.exponent.value;
            (e == 'e' || e == 'E') && (sign == "" || sign == "+" || sign == "-") && IsDigits(digits))
  }

  function LiteralText(t: Literal): string {
    match t
    case Null => "null"
    case True => "true"
    case False => "false"
    case Number(minus, whole, fraction, exponent) =>
      (if minus then "-" else "") + whole
      + (if fraction.Some? then "." + fraction.value else "")
      + (if exponent.Some? then [exponent.value.0] + exponent.value.1 + exponent.value.2 else "")
  }

  /** One character of a string: as it is, escaped by a backslash, or by its four-digit code. */
  datatype Item = Plain(c: char) | Escaped(c: char) | Code(digits: string)

  predicate IsHex(c: char) {
    '0' <= c <= '9' || 'a' <= c <= 'f' || 'A' <= c <= 'F'
  }

  predicate ValidItem(x: Item) {
    match x
    case Plain(c) => c >= ' ' && c != '"' && c != '\\'
    case Escaped(c) => c in "\"\\/bfnrt"
    case Code(digits) => |digits| == 4 && forall d | d in digits :: IsHex(d)
  }

  function ItemText(x: Item): string {
    match x
    case Plain(c) => [c]
    case Escaped(c) => ['\\', c]
    case Code(digits) => ['\\', 'u'] + digits
  }

  function ItemsText(xs: seq<Item>): string {
    if xs == [] then "" else ItemText(xs[0]) + ItemsText(xs[1..])
  }

  function StringText(xs: seq<Item>): string {
    "\"" + ItemsText(xs) + "\""
  }

  datatype Value = Scalar(t: Literal) | Text(items: seq<Item>) | Array(elems: Elems) | Object(members: Members)

  /** A value with the white space around it. */
  datatype Node = Node(before: string, value: Value, after: string)

  datatype Elems = NoElems(blank: string) | LastElem(node: Node) | MoreElems(node: Node, rest: Elems)

  datatype Member = Member(before: string, key: seq<Item>, between: string, node: Node)

  datatype Members = NoMembers(blank: string) | LastMember(m: Member) | MoreMembers(m: Member, others: Members)

  predicate ValidItems(xs: seq<Item>) {
    forall x | x in xs :: ValidItem(x)
  }

  predicate ValidValue(v: Value) {
    match v
    case Scalar(t) => ValidLiteral(t)
    case Text(items) => ValidItems(items)
    case Array(elems) => ValidElems(elems)
    case Object(members) => ValidMembers(members)
  }

  predicate ValidNode(n: Node) {
    IsBlank(n.before) && ValidValue(n.value) && IsBlank(n.after)
  }

  predicate ValidElems(es: Elems) {
    match es
    case NoElems(blank) => IsBlank(blank)
    case LastElem(node) => ValidNode(node)
    case MoreElems(node, rest) => ValidNode(node) && !rest.NoElems? && ValidElems(rest)
  }

  predicate ValidMember(m: Member) {
    IsBlank(m.before) && ValidItems(m.key) && IsBlank(m.between) && ValidNode(m.node)
  }

  predicate ValidMembers(ms: Members) {
    match ms
    case NoMembers(blank) => IsBlank(blank)
    case LastMember(m) => ValidMember(m)
    case MoreMembers(m, others) => ValidMember(m) && !others.NoMembers? && ValidMembers(others)
  }

  function ValueText(v: Value): string {
    match v
    case Scalar(t) => LiteralText(t)
    case Text(items) => StringText(items)
    case Array(elems) => "[" + ElemsText(elems) + "]"
    case Object(members) => "{" + MembersText(members) + "}"
  }

  function NodeText(n: Node): string {
    n.before + ValueText(n.value) + n.after
  }

  function ElemsText(es: Elems): string {
    match es
    case NoElems(blank) => blank
    case LastElem(node) => NodeText(node)
    case MoreElems(node, rest) => NodeText(node) + "," + ElemsText(rest)
  }

  function MemberText(m: Member): string {
    m.before + StringText(m.key) + m.between + ":" + NodeText(m.node)
  }

  function MembersText(ms: Members): string {
    match ms
    case NoMembers(blank) => blank
    case LastMember(m) => MemberText(m)
    case MoreMembers(m, others) => MemberText(m) + "," + MembersText(others)
  }

  // ----- The scan crosses every JSON value -----

  function Outside(depth: nat): Scanner {
    Scanner(depth, false, false)
  }

  /** `s` is crossed at `depth`: scanned outside strings without closing, with the depth the same at the end. */
  predicate Crosses(s: string, depth: nat) {
    Through(Outside(depth), s) == Some(Outside(depth))
  }

  predicate IsQuiet(s: string) {
    forall c | c in s :: c != '{' && c != '}' && c != '"'
  }

  lemma {:induction false} QuietCrosses(s: string, depth: nat)
    requires IsQuiet(s)
    ensures Crosses(s, depth)
  {
    if s != "" {
      assert s[0] in s && forall c | c in s[1..] :: c in s;
      QuietCrosses(s[1..], depth);
    }
  }

  lemma {:induction false} CrossBoth(a: string, b: string, depth: nat)
    requires Crosses(a, depth) && Crosses(b, depth)
    ensures Crosses(a + b, depth)
  {
    ThroughConcat(Outside(depth), a, b);
  }

  lemma {:induction false} LiteralIsQuiet(t: Literal)
    requires ValidLiteral(t)
    ensures IsQuiet(LiteralText(t))
  {
  }

  lemma {:induction false} ItemCrosses(x: Item, depth: nat)
    requires ValidItem(x)
    ensures Through(Scanner(depth, true, false), ItemText(x)) == Some(Scanner(depth, true, false))
  {
    var inside := Scanner(depth, true, false);
    match x
    case Plain(c) =>
      assert [c][1..] == "";
    case Escaped(c) =>
      assert ['\\', c][1..] == [c] && [c][1..] == "";
      assert Through(inside, ItemText(x)) == Through(Scanner(depth, true, true), [c]);
    case Code(digits) =>
      assert ItemText(x)[1..] == ['u'] + digits && (['u'] + digits)[1..] == digits;
      assert Through(inside, ItemText(x)) == Through(Scanner(depth, true, true), ['u'] + digits) == Through(inside, digits);
      HexCrosses(digits, depth);
  }

  lemma {:induction false} HexCrosses(s: string, depth: nat)
    requires forall d | d in s :: IsHex(d)
    ensures Through(Scanner(depth, true, false), s) == Some(Scanner(depth, true, false))
  {
    if s != "" {
      assert s[0] in s;
      HexCrosses(s[1..], depth);
    }
  }

  lemma {:induction false} ItemsCross(xs: seq<Item>, depth: nat)
    requires ValidItems(xs)
    ensures Through(Scanner(depth, true, false), ItemsText(xs)) == Some(Scanner(depth, true, false))
  {
    if xs != [] {
      ItemCrosses(xs[0], depth);
      ItemsCross(xs[1..], depth);
      ThroughConcat(Scanner(depth, true, false), ItemText(xs[0]), ItemsText(xs[1..]));
    }
  }

  lemma {:induction false} StringCrosses(xs: seq<Item>, depth: nat)
    requires ValidItems(xs)
    ensures Crosses(StringText(xs), depth)
  {
    var inside := Scanner(depth, true, false);
    var quote := "\"";
    assert quote[1..] == "";
    assert Through(Outside(depth), quote) == Some(inside) && Through(inside, quote) == Some(Outside(depth));
    ItemsCross(xs, depth);
    ThroughConcat(Outside(depth), quote, ItemsText(xs));
    ThroughConcat(Outside(depth), quote + ItemsText(xs), quote);
  }

  lemma {:induction false} ValueCrosses(v: Value, depth: nat)
    requires ValidValue(v) && depth >= 1
    ensures Crosses(ValueText(v), depth)
    decreases v, 0
  {
    match v
    case Scalar(t) =>
      LiteralIsQuiet(t);
      QuietCrosses(LiteralText(t), depth);
    case Text(items) =>
      StringCrosses(items, depth);
    case Array(elems) =>
      ElemsCross(elems, depth);
      QuietCrosses("[", depth);
      QuietCrosses("]", depth);
      CrossBoth("[", ElemsText(elems), depth);
      CrossBoth("[" + ElemsText(elems), "]", depth);
    case Object(members) =>
      MembersCross(members, depth + 1);
      BracesCross(MembersText(members), depth);
  }

  lemma {:induction false} BracesCross(body: string, depth: nat)
    requires Crosses(body, depth + 1) && depth >= 1
    ensures Crosses("{" + body + "}", depth)
  {
    assert "{"[1..] == "" && "}"[1..] == "";
    assert Through(Outside(depth), "{") == Some(Outside(depth + 1));
    assert Through(Outside(depth + 1), "}") == Some(Outside(depth));
    ThroughConcat(Outside(depth), "{", body);
    ThroughConcat(Outside(depth), "{" + body, "}");
  }

  lemma {:induction false} NodeCrosses(n: Node, depth: nat)
    requires ValidNode(n) && depth >= 1
    ensures Crosses(NodeText(n), depth)
    decreases n, 1
  {
    QuietCrosses(n.before, depth);
    ValueCrosses(n.value, depth);
    QuietCrosses(n.after, depth);
    CrossBoth(n.before, ValueText(n.value), depth);
    CrossBoth(n.before + ValueText(n.value), n.after, depth);
  }

  lemma {:induction false} ElemsCross(es: Elems, depth: nat)
    requires ValidElems(es) && depth >= 1
    ensures Crosses(ElemsText(es), depth)
    decreases es, 2
  {
    match es
    case NoElems(blank) =>
      QuietCrosses(blank, depth);
    case LastElem(node) =>
      NodeCrosses(node, depth);
    case MoreElems(node, rest) =>
      NodeCrosses(node, depth);
      ElemsCross(rest, depth);
      QuietCrosses(",", depth);
      CrossBoth(NodeText(node), ",", depth);
      CrossBoth(NodeText(node) + ",", ElemsText(rest), depth);
  }

  lemma {:induction false} MemberCrosses(m: Member, depth: nat)
    requires ValidMember(m) && depth >= 1
    ensures Crosses(MemberText(m), depth)
    decreases m, 2
  {
    QuietCrosses(m.before, depth);
    StringCrosses(m.key, depth);
    QuietCrosses(m.between, depth);
    QuietCrosses(":", depth);
    NodeCrosses(m.node, depth);
    var a := m.before + StringText(m.key);
    CrossBoth(m.before, StringText(m.key), depth);
    CrossBoth(a, m.between, depth);
    CrossBoth(a + m.between, ":", depth);
    CrossBoth(a + m.between + ":", NodeText(m.node), depth);
  }

  lemma {:induction false} MembersCross(ms: Members, depth: nat)
    requires ValidMembers(ms) && depth >= 1
    ensures Crosses(MembersText(ms), depth)
    decreases ms, 3
  {
    match ms
    case NoMembers(blank) =>
      QuietCrosses(blank, depth);
    case LastMember(m) =>
      MemberCrosses(m, depth);
    case MoreMembers(m, others) =>
      MemberCrosses(m, depth);
      MembersCross(others, depth);
      QuietCrosses(",", depth);
      CrossBoth(MemberText(m), ",", depth);
      CrossBoth(MemberText(m) + ",", MembersText(others), depth);
  }

  /** Scanning an object text stops exactly at its last brace, whatever follows. */
  lemma {:induction false} BalancedObject(members: Members, suffix: string)
    requires ValidMembers(members)
    ensures Balanced(ValueText(Object(members)) + suffix, Outside(0)) == Some(ValueText(Object(members)))
  {
    var body := MembersText(members);
    MembersCross(members, 1);
    assert "{"[1..] == "";
    assert Through(Outside(0), "{") == Some(Outside(1));
    ThroughConcat(Outside(0), "{", body);
    BalancedConcat(Outside(0), "{" + body, "}" + suffix);
    assert ValueText(Object(members)) + suffix == "{" + body + ("}" + suffix);
    assert Balanced("}" + suffix, Outside(1)) == Some("}");
  }

  // ----- Fences -----

  /** A json fence with an end somewhere after it. */
  ghost predicate Fenced(raw: string) {
    exists a, b, c :: raw == a + FENCE + (b + FENCE_END + c)
  }

  lemma {:induction false} FenceIff(raw: string)
    ensures Fence(raw).Some? <==> Fenced(raw)
  {
    if Fence(raw).Some? {
      SplitSound(raw, FENCE);
      var rest := Split(raw, FENCE).value.1;
      SplitSound(rest, FENCE_END);
      assert raw == Split(raw, FENCE).value.0 + FENCE + (Split(rest, FENCE_END).value.0 + FENCE_END + Split(rest, FENCE_END).value.1);
    }
    if Fenced(raw) {
      var a, b, c :| raw == a + FENCE + (b + FENCE_END + c);
      var skipped := SplitFinds(a, FENCE, b + FENCE_END + c);
      assert skipped + (b + FENCE_END + c) == (skipped + b) + FENCE_END + c;
      var ignored := SplitFinds(skipped + b, FENCE_END, c);
    }
  }

  lemma {:induction false} FenceIs(a: string, b: string, c: string)
    requires Quiet(a, FENCE + (b + (FENCE_END + c)), FENCE) && Quiet(b, FENCE_END + c, FENCE_END)
    ensures Fence(a + (FENCE + (b + (FENCE_END + c)))) == Some(b)
  {
    var rest := b + (FENCE_END + c);
    SplitSkips(a, FENCE + rest, FENCE);
    SplitSkips(b, FENCE_END + c, FENCE_END);
    assert (FENCE + rest)[|FENCE|..] == rest && (FENCE_END + c)[|FENCE_END|..] == c;
    assert Split(FENCE_END + c, FENCE_END) == Some(("", c));
    assert b + "" == b;
  }

  /** What stands behind the first json fence, up to the next fence, is extracted, without the white space around it. */
  lemma {:induction false} ExtractsFenced(a: string, left: string, body: string, right: string, c: string)
    requires AllSpace(left) && AllSpace(right) && (body == "" || (!IsSpace(body[0]) && !IsSpace(body[|body| - 1])))
    requires Quiet(a, FENCE + (left + (body + right) + (FENCE_END + c)), FENCE)
    requires Quiet(left + (body + right), FENCE_END + c, FENCE_END)
    ensures Extract(a + (FENCE + (left + (body + right) + (FENCE_END + c)))) == Some(body)
  {
    FenceIs(a, left + (body + right), c);
    TrimTakes(left, body, right);
  }

  lemma {:induction false} FencedInside(prefix: string, s: string, suffix: string)
    requires Fenced(s)
    ensures Fenced(prefix + s + suffix)
  {
    var a, b, c :| s == a + FENCE + (b + FENCE_END + c);
    assert prefix + s + suffix == (prefix + a) + FENCE + (b + FENCE_END + (c + suffix));
  }

  lemma {:induction false} FromBraceSkips(prefix: string, s: string)
    requires '{' !in prefix && s != "" && s[0] == '{'
    ensures FromBrace(prefix + s) == Some(s)
  {
    if prefix == "" {
      assert prefix + s == s;
    } else {
      assert prefix[0] in prefix;
      assert (prefix + s)[1..] == prefix[1..] + s;
      FromBraceSkips(prefix[1..], s);
    }
  }

  /**
   Any JSON object, behind any text without an opening brace and before any text at all, is extracted exactly, when the
   whole has no json fence. Extracting again from the result changes nothing.
   */
  lemma {:induction false} ExtractsObject(prefix: string, members: Members, suffix: string)
    requires ValidMembers(members) && '{' !in prefix
    requires !Fenced(prefix + ValueText(Object(members)) + suffix)
    ensures Extract(prefix + ValueText(Object(members)) + suffix) == Some(ValueText(Object(members)))
    ensures Extract(ValueText(Object(members))) == Some(ValueText(Object(members)))
  {
    var o := ValueText(Object(members));
    FenceIff(prefix + o + suffix);
    assert prefix + o + suffix == prefix + (o + suffix);
    FromBraceSkips(prefix, o + suffix);
    BalancedObject(members, suffix);
    if Fenced(o) {
      FencedInside(prefix, o, suffix);
    }
    FenceIff(o);
    BalancedObject(members, "");
    assert o + "" == o;
  }

  lemma {:induction false} BalancedIsPrefix(s: string, st: Scanner)
    requires Balanced(s, st).Some?
    ensures var r := Balanced(s, st).value;
            r != "" && r <= s && r[|r| - 1] == '}'
  {
    if !Closes(st, s[0]) {
      BalancedIsPrefix(s[1..], Advance(st, s[0]));
    }
  }

  lemma {:induction false} FromBraceParts(raw: string) returns (before: string)
    requires FromBrace(raw).Some?
    ensures '{' !in before && raw == before + FromBrace(raw).value
    ensures FromBrace(raw).value != "" && FromBrace(raw).value[0] == '{'
  {
    before := "";
    if raw[0] == '{' {
      assert raw == "" + raw;
    } else {
      var rest := FromBraceParts(raw[1..]);
      before := [raw[0]] + rest;
    }
  }

  /** Whatever the model answers, a text extracted outside a fence is a piece of it, from its first brace to a closing one. */
  lemma {:induction false} ExtractIsPart(raw: string) returns (before: string, after: string)
    requires !Fenced(raw) && Extract(raw).Some?
    ensures var r := Extract(raw).value;
            raw == before + r + after && '{' !in before && r != "" && r[0] == '{' && r[|r| - 1] == '}'
  {
    FenceIff(raw);
    before := FromBraceParts(raw);
    var text := FromBrace(raw).value;
    BalancedIsPrefix(text, Outside(0));
    after := text[|Extract(raw).value|..];
    assert text == Extract(raw).value + after;
  }
}
