/** Reading a delegation prompt: `sub_agent:`, `input:` and `goal:` lines, and the byte offset where the goal starts. */
module ParseInputs {
  import opened Prelude
  import opened Texts
  import Utf8

  // ----- Byte offsets in a text -----

  /** Bytes a character takes in UTF-8. */
  function Width(c: char): nat {
    var code := c as int;
    if code < 0x80 then 1 else if code < 0x800 then 2 else if code < 0x1_0000 then 3 else 4
  }

  /** That many bytes encode it. */
  lemma {:induction false} WidthIsEncoded(c: char)
    ensures Utf8.IsScalar(c as int) && Width(c) == |Utf8.EncodeScalar(c as int)|
  {
  }

  function ByteLen(s: string): nat {
    if s == "" then 0 else Width(s[0]) + ByteLen(s[1..])
  }

  /** The text from a byte offset on; slicing past the end or inside a character fails. */
  function From(s: string, offset: nat): Option<string> {
    if offset == 0 then Some(s)
    else if s == "" || Width(s[0]) > offset then None
    else From(s[1..], offset - Width(s[0]))
  }

  lemma {:induction false} ByteLenJoin(a: string, b: string)
    ensures ByteLen(a + b) == ByteLen(a) + ByteLen(b)
  {
    if a == "" {
      assert a + b == b;
    } else {
      assert (a + b)[1..] == a[1..] + b;
      ByteLenJoin(a[1..], b);
    }
  }

  /** An offset within the first part of a text keeps the second part. */
  lemma {:induction false} FromJoin(a: string, b: string, offset: nat)
    requires offset <= ByteLen(a)
    ensures match From(a, offset)
            case None => From(a + b, offset).None?
            case Some(t) => From(a + b, offset) == Some(t + b)
  {
    if offset > 0 {
      assert (a + b)[1..] == a[1..] + b;
      if Width(a[0]) <= offset {
        FromJoin(a[1..], b, offset - Width(a[0]));
      }
    }
  }

  lemma {:induction false} FromEnd(a: string)
    ensures From(a, ByteLen(a)) == Some("")
  {
    if a != "" {
      FromEnd(a[1..]);
    }
  }

  // ----- Lines -----

  datatype Line = Line(raw: string, ended: bool) {
    /** The line as `lines()` yields it: a carriage return before the newline is dropped too. */
    function Text(): string {
      if HasCr() then raw[..|raw| - 1] else raw
    }

    predicate HasCr() {
      ended && raw != "" && raw[|raw| - 1] == '\r'
    }

    function Whole(): string {
      if ended then raw + "\n" else raw
    }
  }

  /** The lines of a text; only the last may lack its newline. */
  function Lines(s: string): seq<Line> {
    if s == "" then [] else AddChar(Lines(s[..|s| - 1]), s[|s| - 1])
  }

  predicate Open(ls: seq<Line>) {
    ls != [] && !ls[|ls| - 1].ended
  }

  /** One more character: it ends or continues an open last line, or starts a new one. */
  function AddChar(ls: seq<Line>, c: char): seq<Line> {
    if Open(ls) then ls[..|ls| - 1] + [Put(ls[|ls| - 1].raw, c)] else ls + [Put("", c)]
  }

  function Put(raw: string, c: char): (l: Line)
    ensures l.Whole() == raw + [c]
  {
    if c == '\n' then Line(raw, true) else Line(raw + [c], false)
  }

  function Joined(ls: seq<Line>): string {
    if ls == [] then "" else Joined(ls[..|ls| - 1]) + ls[|ls| - 1].Whole()
  }

  lemma {:induction false} JoinedSnoc(ls: seq<Line>, l: Line)
    ensures Joined(ls + [l]) == Joined(ls) + l.Whole()
  {
    assert (ls + [l])[..|ls|] == ls;
  }

  lemma {:induction false} JoinedJoin(a: seq<Line>, b: seq<Line>)
    ensures Joined(a + b) == Joined(a) + Joined(b)
  {
    if b == [] {
      assert a + b == a;
    } else {
      var front, last := b[..|b| - 1], b[|b| - 1];
      JoinedJoin(a, front);
      assert a + b == (a + front) + [last];
      JoinedSnoc(a + front, last);
      Assoc(Joined(a), Joined(front), last.Whole());
    }
  }

  lemma {:induction false} AddCharJoins(ls: seq<Line>, c: char)
    ensures Joined(AddChar(ls, c)) == Joined(ls) + [c]
  {
    if Open(ls) {
      var front, last := ls[..|ls| - 1], ls[|ls| - 1];
      JoinedSnoc(front, Put(last.raw, c));
    } else {
      JoinedSnoc(ls, Put("", c));
    }
  }

  lemma {:induction false} FrontAndLast(s: string)
    requires s != ""
    ensures s[..|s| - 1] + [s[|s| - 1]] == s
  {
  }

  lemma {:induction false} LinesJoin(s: string)
    ensures Joined(Lines(s)) == s
  {
    if s != "" {
      LinesJoin(s[..|s| - 1]);
      AddCharJoins(Lines(s[..|s| - 1]), s[|s| - 1]);
      FrontAndLast(s);
    }
  }

  /** Every line but the last ends with a newline. */
  lemma {:induction false} LinesEnded(s: string, k: nat)
    requires k + 1 < |Lines(s)|
    ensures Lines(s)[k].ended
  {
    if s != "" && k + 1 < |Lines(s[..|s| - 1])| {
      LinesEnded(s[..|s| - 1], k);
    }
  }

  lemma {:induction false} FrontOfJoin(a: string, b: string)
    requires b != ""
    ensures (a + b)[..|a + b| - 1] == a + b[..|b| - 1] && (a + b)[|a + b| - 1] == b[|b| - 1]
  {
  }

  /** A text cut after a newline is cut between two lines. */
  lemma {:induction false} LinesOfJoin(a: string, b: string)
    requires a == "" || a[|a| - 1] == '\n'
    ensures Lines(a + b) == Lines(a) + Lines(b)
  {
    if b == "" {
      assert a + b == a;
    } else {
      FrontOfJoin(a, b);
      LinesOfJoin(a, b[..|b| - 1]);
      AddCharToJoin(Lines(a), Lines(b[..|b| - 1]), b[|b| - 1]);
    }
  }

  lemma {:induction false} AddCharToJoin(a: seq<Line>, b: seq<Line>, c: char)
    requires !Open(a)
    ensures AddChar(a + b, c) == a + AddChar(b, c)
  {
    if b == [] {
      assert a + b == a;
    } else if Open(b) {
      assert (a + b)[..|a + b| - 1] == a + b[..|b| - 1];
    }
  }

  lemma {:induction false} LastChar(raw: string)
    requires '\n' !in raw && raw != ""
    ensures raw[|raw| - 1] != '\n' && '\n' !in raw[..|raw| - 1]
  {
    assert raw[|raw| - 1] in raw;
  }

  lemma {:induction false} OneOpenLine(raw: string)
    requires '\n' !in raw
    ensures Lines(raw) == if raw == "" then [] else [Line(raw, false)]
  {
    if raw != "" {
      LastChar(raw);
      FrontAndLast(raw);
      OneOpenLine(raw[..|raw| - 1]);
    }
  }

  lemma {:induction false} OneLine(raw: string)
    requires '\n' !in raw
    ensures Lines(raw + "\n") == [Line(raw, true)]
  {
    OneOpenLine(raw);
    assert (raw + "\n")[..|raw|] == raw;
  }

  // ----- What one line says -----

  const AGENT := "sub_agent:"
  const INPUT := "input:"
  const GOAL := "goal:"

  datatype Directive = Agent(name: string) | Input(key: string, value: string) | Goal | Other

  function StripPrefix(s: string, prefix: string): Option<string>
    decreases |prefix|
  {
    if prefix == "" then Some(s)
    else if s == "" || s[0] != prefix[0] then None
    else StripPrefix(s[1..], prefix[1..])
  }

  function ReadPair(text: string): Directive {
    match Split(text, "=")
    case Some((k, v)) => if Trim(k) != "" && Trim(v) != "" then Input(Trim(k), Trim(v)) else Other
    case None => Other
  }

  function ReadLine(trimmed: string): Directive {
    match StripPrefix(trimmed, AGENT)
    case Some(name) => Agent(Trim(name))
    case None =>
      match StripPrefix(trimmed, INPUT)
      case Some(pair) => ReadPair(pair)
      case None => if StripPrefix(trimmed, GOAL).Some? then Goal else Other
  }

  function Says(l: Line): Directive {
    ReadLine(Trim(l.Text()))
  }

  // ----- The scan -----

  /** The offset the scan has counted after these lines: each adds its text and one more. */
  function Offset(ls: seq<Line>): nat {
    if ls == [] then 0 else Offset(ls[..|ls| - 1]) + ByteLen(ls[|ls| - 1].Text()) + 1
  }

  /** The last agent named by these lines. */
  function AgentOf(ls: seq<Line>): Option<string> {
    if ls == [] then None
    else
      match Says(ls[|ls| - 1])
      case Agent(name) => Some(name)
      case _ => AgentOf(ls[..|ls| - 1])
  }

  /** The last value these lines give to every key. */
  function InputsOf(ls: seq<Line>): map<string, string> {
    if ls == [] then map[]
    else
      match Says(ls[|ls| - 1])
      case Input(k, v) => InputsOf(ls[..|ls| - 1])[k := v]
      case _ => InputsOf(ls[..|ls| - 1])
  }

  /** The first goal line at or after line `k`; the number of lines if there is none. */
  function GoalLine(ls: seq<Line>, k: nat): (g: nat)
    requires k <= |ls|
    ensures k <= g <= |ls|
    decreases |ls| - k
  {
    if k == |ls| || Says(ls[k]).Goal? then k else GoalLine(ls, k + 1)
  }

  datatype Parsed = Parsed(agent: Option<string>, goal: string, inputs: map<string, string>)

  /** The goal taken at an offset; none when the slice fails. */
  function GoalAt(prompt: string, start: nat): Option<string> {
    if start == 0 then Some(prompt)
    else
      match From(prompt, start)
      case None => None
      case Some(t) => Some(Trim(t))
  }

  /** What a prompt means: only the lines before its goal line are read. */
  function Parse(prompt: string): Option<Parsed> {
    var ls := Lines(prompt);
    var g := GoalLine(ls, 0);
    match GoalAt(prompt, if g < |ls| then Offset(ls[..g]) else 0)
    case None => None
    case Some(goal) => Some(Parsed(AgentOf(ls[..g]), goal, InputsOf(ls[..g])))
  }

  lemma {:induction false} OneMoreLine(ls: seq<Line>, k: nat)
    requires k < |ls|
    ensures var d := Says(ls[k]);
            && AgentOf(ls[..k + 1]) == (if d.Agent? then Some(d.name) else AgentOf(ls[..k]))
            && InputsOf(ls[..k + 1]) == (if d.Input? then InputsOf(ls[..k])[d.key := d.value] else InputsOf(ls[..k]))
    ensures Offset(ls[..k + 1]) == Offset(ls[..k]) + ByteLen(ls[k].Text()) + 1
    ensures GoalLine(ls, k) == if Says(ls[k]).Goal? then k else GoalLine(ls, k + 1)
  {
    assert ls[..k + 1][..k] == ls[..k];
  }

  method ReadLines(ls: seq<Line>) returns (agent: Option<string>, inputs: map<string, string>, goalStart: nat)
    ensures var g := GoalLine(ls, 0);
            agent == AgentOf(ls[..g]) && inputs == InputsOf(ls[..g]) && goalStart == if g < |ls| then Offset(ls[..g]) else 0
  {
    agent, inputs, goalStart := None, map[], 0;
    var lineOffset: nat := 0;
    var k := 0;
    while k < |ls|
      invariant k <= |ls| && GoalLine(ls, 0) == GoalLine(ls, k)
      invariant agent == AgentOf(ls[..k]) && inputs == InputsOf(ls[..k])
      invariant goalStart == 0 && lineOffset == Offset(ls[..k])
    {
      OneMoreLine(ls, k);
      match Says(ls[k]) {
        case Agent(name) => agent := Some(name);
        case Input(key, value) => inputs := inputs[key := value];
        case Goal =>
          goalStart := lineOffset;
          return;
        case Other =>
      }
      lineOffset := lineOffset + ByteLen(ls[k].Text()) + 1;
      k := k + 1;
    }
  }

  /** Read a prompt line by line up to its goal line; nothing is returned when slicing at the offset fails. */
  method ParseInput(prompt: string) returns (r: Option<Parsed>)
    ensures r == Parse(prompt)
  {
    var agent, inputs, goalStart := ReadLines(Lines(prompt));
    if goalStart > 0 {
      var slice := From(prompt, goalStart);
      if slice.None? {
        return None;
      }
      r := Some(Parsed(agent, Trim(slice.value), inputs));
    } else {
      r := Some(Parsed(agent, prompt, inputs));
    }
  }

  lemma {:induction false} GoalLineIsGoal(ls: seq<Line>, k: nat)
    requires k <= |ls| && GoalLine(ls, k) < |ls|
    ensures Says(ls[GoalLine(ls, k)]).Goal?
    decreases |ls| - k
  {
    if !Says(ls[k]).Goal? {
      GoalLineIsGoal(ls, k + 1);
    }
  }

  // ----- Where the goal line really starts -----

  /** Lines that end with a carriage return and a newline. */
  function CrLfs(ls: seq<Line>): nat {
    if ls == [] then 0 else CrLfs(ls[..|ls| - 1]) + (if ls[|ls| - 1].HasCr() then 1 else 0)
  }

  lemma {:induction false} LineBytes(l: Line)
    requires l.ended
    ensures ByteLen(l.Whole()) == ByteLen(l.Text()) + 1 + (if l.HasCr() then 1 else 0)
  {
    ByteLenJoin(l.raw, "\n");
    if l.HasCr() {
      assert l.raw == l.Text() + "\r";
      ByteLenJoin(l.Text(), "\r");
    }
  }

  /** The offset misses one byte for every line that ends with a carriage return and a newline. */
  lemma {:induction false} OffsetIsShort(ls: seq<Line>)
    requires forall l | l in ls :: l.ended
    ensures Offset(ls) + CrLfs(ls) == ByteLen(Joined(ls)) && Offset(ls) >= |ls|
  {
    if ls != [] {
      var front, last := ls[..|ls| - 1], ls[|ls| - 1];
      OffsetIsShort(front);
      LineBytes(last);
      ByteLenJoin(Joined(front), last.Whole());
    }
  }

  // ----- Trimming a joined text -----

  lemma {:induction false} TrimStartJoin(a: string, b: string)
    ensures TrimStart(a + b) == if TrimStart(a) == "" then TrimStart(b) else TrimStart(a) + b
  {
    if a == "" {
      assert a + b == b;
    } else if IsSpace(a[0]) {
      assert (a + b)[1..] == a[1..] + b;
      TrimStartJoin(a[1..], b);
    }
  }

  /** Trimming the end of a text leaves a part alone when something after it, or its own end, is not white space. */
  lemma {:induction false} TrimEndJoin(a: string, b: string)
    requires TrimEnd(b) != "" || TrimEnd(a) == a
    ensures TrimEnd(a + b) == a + TrimEnd(b)
  {
    if b == "" {
      assert a + b == a;
    } else if IsSpace(b[|b| - 1]) {
      FrontOfJoin(a, b);
      TrimEndJoin(a, b[..|b| - 1]);
    }
  }

  lemma {:induction false} TrimEndNonEmpty(s: string)
    requires s != "" && !IsSpace(s[0])
    ensures TrimEnd(s) != ""
  {
    if IsSpace(s[|s| - 1]) {
      TrimEndNonEmpty(s[..|s| - 1]);
    }
  }

  lemma {:induction false} TrimEndOfTrimStart(s: string)
    requires TrimStart(s) != ""
    ensures TrimEnd(s) != "" && |Trim(s)| <= |TrimEnd(s)| && TrimStart(TrimEnd(s)) == Trim(s)
  {
    if IsSpace(s[0]) {
      TrimEndOfTrimStart(s[1..]);
      FirstAndRest(s);
      TrimEndNonEmpty(TrimStart(s));
      assert TrimEnd(s[1..]) != "";
      TrimEndJoin([s[0]], s[1..]);
    } else {
      TrimEndNonEmpty(s);
    }
  }

  lemma {:induction false} FirstAndRest(s: string)
    requires s != ""
    ensures [s[0]] + s[1..] == s
  {
  }

  /** White space in front of a text disappears; anything else in front stays. */
  lemma {:induction false} TrimJoin(a: string, b: string)
    requires TrimStart(b) != ""
    ensures Trim(a + b) == Trim(b) <==> TrimStart(a) == ""
  {
    TrimStartJoin(a, b);
    TrimEndOfTrimStart(b);
    if TrimStart(a) != "" {
      TrimEndJoin(TrimStart(a), b);
    }
  }
}
