/** What reading a prompt returns: the goal line's text exactly when the counted offset is right, and the printed parts. */
module PromptLaws {
  import opened Prelude
  import opened Texts
  import opened ParseInputs

  // ----- A line keeps its first part -----

  lemma {:induction false} StripPrefixJoin(prefix: string, s: string)
    ensures StripPrefix(prefix + s, prefix) == Some(s)
  {
    if prefix == "" {
      assert prefix + s == s;
    } else {
      assert (prefix + s)[1..] == prefix[1..] + s;
      StripPrefixJoin(prefix[1..], s);
    }
  }

  lemma {:induction false} StripPrefixOf(s: string, prefix: string)
    requires StripPrefix(s, prefix).Some?
    ensures s == prefix + StripPrefix(s, prefix).value
  {
    if prefix == "" {
      assert prefix + s == s;
    } else {
      StripPrefixOf(s[1..], prefix[1..]);
      FirstAndRest(s);
      FirstAndRest(prefix);
      Assoc([s[0]], prefix[1..], StripPrefix(s, prefix).value);
    }
  }

  lemma {:induction false} TextIsStart(l: Line) returns (dropped: string)
    ensures l.Whole() == l.Text() + dropped
  {
    dropped := (if l.HasCr() then "\r" else "") + (if l.ended then "\n" else "");
    if l.HasCr() {
      FrontAndLast(l.raw);
    }
  }

  // ----- The goal is the text from the goal line on, if and only if -----

  lemma {:induction false} GoalHasInk(l: Line)
    requires Says(l).Goal?
    ensures TrimStart(l.Text()) != ""
  {
    if TrimStart(l.Text()) == "" {
      assert Trim(l.Text()) == "";
    }
  }

  lemma {:induction false} JoinedHasInk(ls: seq<Line>)
    requires ls != [] && TrimStart(ls[0].Text()) != ""
    ensures TrimStart(Joined(ls)) != ""
  {
    var dropped := TextIsStart(ls[0]);
    TrimStartJoin(ls[0].Text(), dropped);
    assert ls == [ls[0]] + ls[1..];
    JoinedJoin([ls[0]], ls[1..]);
    assert Joined([ls[0]]) == ls[0].Whole() by {
      assert Joined([]) == "";
    }
    TrimStartJoin(ls[0].Whole(), Joined(ls[1..]));
  }

  /** The text in front of the goal line, and the text from it on. */
  function BeforeGoal(prompt: string): string {
    Joined(Lines(prompt)[..GoalLine(Lines(prompt), 0)])
  }

  function FromGoal(prompt: string): string {
    Joined(Lines(prompt)[GoalLine(Lines(prompt), 0)..])
  }

  /** How many lines in front of the goal line end with a carriage return and a newline. */
  function Missed(prompt: string): nat {
    CrLfs(Lines(prompt)[..GoalLine(Lines(prompt), 0)])
  }

  /** The offset at which the goal is cut. */
  function CountedOffset(prompt: string): nat {
    Offset(Lines(prompt)[..GoalLine(Lines(prompt), 0)])
  }

  /** The last `k` bytes of a text are whole white space characters. */
  predicate BlankEnd(s: string, k: nat)
    requires k <= ByteLen(s)
  {
    match From(s, ByteLen(s) - k)
    case None => false
    case Some(t) => TrimStart(t) == ""
  }

  predicate GoalAfterFirstLine(prompt: string) {
    0 < GoalLine(Lines(prompt), 0) < |Lines(prompt)|
  }

  lemma {:induction false} PromptSplits(prompt: string)
    ensures prompt == BeforeGoal(prompt) + FromGoal(prompt)
    ensures GoalAfterFirstLine(prompt) ==> TrimStart(FromGoal(prompt)) != ""
  {
    var ls := Lines(prompt);
    var g := GoalLine(ls, 0);
    LinesJoin(prompt);
    assert ls == ls[..g] + ls[g..];
    JoinedJoin(ls[..g], ls[g..]);
    if g < |ls| {
      GoalLineIsGoal(ls, 0);
      GoalHasInk(ls[g]);
      JoinedHasInk(ls[g..]);
    }
  }

  /** The offset is the byte position of the goal line, less one for every carriage return dropped before it. */
  lemma {:induction false} OffsetOfGoal(prompt: string)
    requires GoalAfterFirstLine(prompt)
    ensures Missed(prompt) <= ByteLen(BeforeGoal(prompt))
    ensures CountedOffset(prompt) == ByteLen(BeforeGoal(prompt)) - Missed(prompt) > 0
  {
    var ls := Lines(prompt);
    var g := GoalLine(ls, 0);
    forall l | l in ls[..g] ensures l.ended {
      var k :| 0 <= k < g && ls[k] == l;
      LinesEnded(prompt, k);
    }
    OffsetIsShort(ls[..g]);
  }

  lemma {:induction false} SliceIsExactIff(before: string, text: string, offset: nat)
    requires 0 < offset <= ByteLen(before) && TrimStart(text) != ""
    ensures GoalAt(before + text, offset) == Some(Trim(text)) <==> BlankEnd(before, ByteLen(before) - offset)
  {
    FromJoin(before, text, offset);
    match From(before, offset)
    case None =>
    case Some(t) => TrimJoin(t, text);
  }

  predicate ParsesToGoal(prompt: string, goal: string) {
    Parse(prompt).Some? && Parse(prompt).value.goal == goal
  }

  lemma {:induction false} ParsedGoal(prompt: string, goal: string)
    requires GoalAfterFirstLine(prompt)
    ensures ParsesToGoal(prompt, goal) <==> GoalAt(prompt, CountedOffset(prompt)) == Some(goal)
  {
  }

  lemma {:induction false} CutIsExactIff(prompt: string, before: string, text: string, offset: nat, missed: nat)
    requires prompt == before + text && offset == ByteLen(before) - missed > 0 && TrimStart(text) != ""
    ensures GoalAt(prompt, offset) == Some(Trim(text)) <==> BlankEnd(before, missed)
    ensures BlankEnd(before, 0)
  {
    SliceIsExactIff(before, text, offset);
    FromEnd(before);
  }

  /** The goal is the trimmed text from the goal line on, if and only if the bytes the offset misses are white space. */
  lemma {:induction false} GoalIsExactIff(prompt: string)
    requires GoalAfterFirstLine(prompt)
    ensures Missed(prompt) <= ByteLen(BeforeGoal(prompt))
    ensures ParsesToGoal(prompt, Trim(FromGoal(prompt))) <==> BlankEnd(BeforeGoal(prompt), Missed(prompt))
    ensures BlankEnd(BeforeGoal(prompt), 0)
  {
    OffsetOfGoal(prompt);
    PromptSplits(prompt);
    ParsedGoal(prompt, Trim(FromGoal(prompt)));
    CutIsExactIff(prompt, BeforeGoal(prompt), FromGoal(prompt), CountedOffset(prompt), Missed(prompt));
  }

  /** A prompt with no goal line, or with it first, is its own goal, white space and all. */
  lemma {:induction false} WholePrompt(prompt: string)
    requires !GoalAfterFirstLine(prompt)
    ensures ParsesToGoal(prompt, prompt)
  {
  }

  // ----- What a printed prompt says -----

  datatype Pair = Pair(key: string, value: string) {
    function Print(): string {
      INPUT + (key + ("=" + value))
    }

    /** A pair can be printed on one line of its own. */
    predicate Printable() {
      '=' !in key && '\n' !in key && '\n' !in value && (value == "" || value[|value| - 1] != '\r')
    }
  }

  /** The last value of every key; pairs with a blank part are ignored. */
  function Values(pairs: seq<Pair>): map<string, string> {
    if pairs == [] then map[]
    else
      var values, last := Values(pairs[..|pairs| - 1]), pairs[|pairs| - 1];
      if Trim(last.key) != "" && Trim(last.value) != "" then values[Trim(last.key) := Trim(last.value)] else values
  }

  /** A line that starts with a directive says what the trimmed rest says. */
  lemma {:induction false} TrimDirective(directive: string, s: string)
    requires directive != "" && !IsSpace(directive[0]) && !IsSpace(directive[|directive| - 1])
    ensures Trim(directive + s) == directive + TrimEnd(s)
  {
    TrimStartJoin(directive, s);
    TrimEndJoin(directive, s);
  }

  lemma {:induction false} TrimOfTrimEnd(s: string)
    ensures Trim(TrimEnd(s)) == Trim(s)
  {
    if TrimStart(s) == "" {
      BlankEnds(s);
    } else {
      TrimEndOfTrimStart(s);
      TrimEndTwice(TrimStart(s));
    }
  }

  lemma {:induction false} TrimEndTwice(s: string)
    ensures TrimEnd(TrimEnd(s)) == TrimEnd(s)
  {
  }

  lemma {:induction false} BlankEnds(s: string)
    requires TrimStart(s) == ""
    ensures TrimEnd(s) == ""
  {
    if s != "" {
      BlankEnds(s[1..]);
      FirstAndRest(s);
      BlankJoin([s[0]], s[1..]);
    }
  }

  lemma {:induction false} BlankJoin(a: string, b: string)
    requires TrimEnd(b) == ""
    ensures TrimEnd(a + b) == TrimEnd(a)
  {
    if b == "" {
      assert a + b == a;
    } else {
      FrontOfJoin(a, b);
      BlankJoin(a, b[..|b| - 1]);
    }
  }

  lemma {:induction false} NoCarriageReturn(a: string, b: string)
    requires a != "" && a[|a| - 1] != '\r' && (b == "" || b[|b| - 1] != '\r')
    ensures Line(a + b, true).Text() == a + b
  {
  }

  lemma {:induction false} ReadsAgent(rest: string)
    ensures ReadLine(AGENT + rest) == Agent(Trim(rest))
  {
    StripPrefixJoin(AGENT, rest);
  }

  lemma {:induction false} ReadsPair(rest: string)
    ensures ReadLine(INPUT + rest) == ReadPair(rest)
  {
    StripPrefixJoin(INPUT, rest);
    assert StripPrefix(INPUT + rest, AGENT).None?;
  }

  lemma {:induction false} ReadsGoal(rest: string)
    ensures ReadLine(GOAL + rest) == Goal
  {
    StripPrefixJoin(GOAL, rest);
    assert StripPrefix(GOAL + rest, AGENT).None? && StripPrefix(GOAL + rest, INPUT).None?;
  }

  lemma {:induction false} AgentLineSays(name: string)
    requires name == "" || name[|name| - 1] != '\r'
    ensures Says(Line(AGENT + name, true)) == Agent(Trim(name))
  {
    NoCarriageReturn(AGENT, name);
    TrimDirective(AGENT, name);
    ReadsAgent(TrimEnd(name));
    TrimOfTrimEnd(name);
  }

  lemma {:induction false} TrimmedPair(key: string, value: string)
    ensures Trim(INPUT + (key + ("=" + value))) == INPUT + (key + ("=" + TrimEnd(value)))
  {
    TrimEndJoin("=", value);
    TrimEndJoin(key, "=" + value);
    TrimDirective(INPUT, key + ("=" + value));
  }

  lemma {:induction false} PairLineSays(pair: Pair)
    requires pair.Printable()
    ensures Says(Line(pair.Print(), true)) ==
              if Trim(pair.key) != "" && Trim(pair.value) != "" then Input(Trim(pair.key), Trim(pair.value)) else Other
  {
    NoCarriageReturn(INPUT + (pair.key + "="), pair.value);
    assert INPUT + (pair.key + "=") + pair.value == pair.Print();
    TrimmedPair(pair.key, pair.value);
    ReadsPair(pair.key + ("=" + TrimEnd(pair.value)));
    PairSplits(pair.key, TrimEnd(pair.value));
    TrimOfTrimEnd(pair.value);
  }

  lemma {:induction false} PairSplits(key: string, value: string)
    requires '=' !in key
    ensures Split(key + ("=" + value), "=") == Some((key, value))
  {
    assert "=" <= "=" + value && ("=" + value)[1..] == value;
    QuietWithoutFirst(key, "=" + value, "=");
    SplitSkips(key, "=" + value, "=");
    assert key + "" == key;
  }

  // ----- Printing and reading undo each other -----

  function PairText(pairs: seq<Pair>): string {
    if pairs == [] then "" else PairText(pairs[..|pairs| - 1]) + (pairs[|pairs| - 1].Print() + "\n")
  }

  /** The lines in front of the goal. */
  function Head(name: string, pairs: seq<Pair>): string {
    (AGENT + name + "\n") + PairText(pairs)
  }

  function Printed(name: string, pairs: seq<Pair>, goal: string): string {
    Head(name, pairs) + (GOAL + goal)
  }

  predicate PrintableName(name: string) {
    '\n' !in name && (name == "" || name[|name| - 1] != '\r')
  }

  predicate AllPrintable(pairs: seq<Pair>) {
    forall pair | pair in pairs :: pair.Printable()
  }

  function PairLines(pairs: seq<Pair>): (ls: seq<Line>)
    ensures |ls| == |pairs|
  {
    if pairs == [] then [] else PairLines(pairs[..|pairs| - 1]) + [Line(pairs[|pairs| - 1].Print(), true)]
  }

  lemma {:induction false} AllButLast(pairs: seq<Pair>)
    requires AllPrintable(pairs) && pairs != []
    ensures AllPrintable(pairs[..|pairs| - 1]) && pairs[|pairs| - 1].Printable()
  {
  }

  lemma {:induction false} PrintIsOneLine(pair: Pair)
    requires pair.Printable()
    ensures '\n' !in pair.Print() && !Line(pair.Print(), true).HasCr()
  {
    assert pair.Print() == INPUT + (pair.key + "=") + pair.value;
  }

  lemma {:induction false} LinesSnoc(text: string, ls: seq<Line>, raw: string)
    requires Lines(text) == ls && (text == "" || text[|text| - 1] == '\n') && '\n' !in raw
    ensures Lines(text + (raw + "\n")) == ls + [Line(raw, true)]
    ensures var t := text + (raw + "\n"); t[|t| - 1] == '\n'
  {
    OneLine(raw);
    LinesOfJoin(text, raw + "\n");
  }

  lemma {:induction false} LinesOfPairs(start: string, ls: seq<Line>, pairs: seq<Pair>)
    requires Lines(start) == ls && start != "" && start[|start| - 1] == '\n' && AllPrintable(pairs)
    ensures Lines(start + PairText(pairs)) == ls + PairLines(pairs)
    ensures var t := start + PairText(pairs); t[|t| - 1] == '\n'
  {
    if pairs == [] {
      assert start + PairText(pairs) == start && ls + PairLines(pairs) == ls;
    } else {
      var front, last := pairs[..|pairs| - 1], pairs[|pairs| - 1];
      AllButLast(pairs);
      LinesOfPairs(start, ls, front);
      PrintIsOneLine(last);
      LinesSnoc(start + PairText(front), ls + PairLines(front), last.Print());
      Assoc(start, PairText(front), last.Print() + "\n");
      Assoc(ls, PairLines(front), [Line(last.Print(), true)]);
    }
  }

  lemma {:induction false} LinesOfHead(name: string, pairs: seq<Pair>)
    requires PrintableName(name) && AllPrintable(pairs)
    ensures Lines(Head(name, pairs)) == [Line(AGENT + name, true)] + PairLines(pairs)
    ensures Head(name, pairs) != "" && Head(name, pairs)[|Head(name, pairs)| - 1] == '\n'
  {
    OneLine(AGENT + name);
    LinesOfPairs(AGENT + name + "\n", [Line(AGENT + name, true)], pairs);
  }

  lemma {:induction false} SaysSnoc(ls: seq<Line>, l: Line)
    ensures var d, all := Says(l), ls + [l];
            && AgentOf(all) == (if d.Agent? then Some(d.name) else AgentOf(ls))
            && InputsOf(all) == (if d.Input? then InputsOf(ls)[d.key := d.value] else InputsOf(ls))
            && CrLfs(all) == CrLfs(ls) + (if l.HasCr() then 1 else 0)
            && NoGoal(all) == (NoGoal(ls) && !d.Goal?)
  {
    assert (ls + [l])[..|ls|] == ls;
  }

  lemma {:induction false} PairsSay(ls: seq<Line>, pairs: seq<Pair>)
    requires AllPrintable(pairs) && InputsOf(ls) == map[] && CrLfs(ls) == 0 && NoGoal(ls)
    ensures var all := ls + PairLines(pairs);
            AgentOf(all) == AgentOf(ls) && InputsOf(all) == Values(pairs) && CrLfs(all) == 0 && NoGoal(all)
  {
    if pairs == [] {
      assert ls + PairLines(pairs) == ls;
    } else {
      var front, last := pairs[..|pairs| - 1], pairs[|pairs| - 1];
      AllButLast(pairs);
      PairsSay(ls, front);
      PairLineSays(last);
      PrintIsOneLine(last);
      SaysSnoc(ls + PairLines(front), Line(last.Print(), true));
      Assoc(ls, PairLines(front), [Line(last.Print(), true)]);
    }
  }

  /** The lines in front of the goal say the name and the values, and none of them is a goal line or loses a byte. */
  lemma {:induction false} HeadSays(name: string, pairs: seq<Pair>)
    requires PrintableName(name) && AllPrintable(pairs)
    ensures var ls := [Line(AGENT + name, true)] + PairLines(pairs);
            AgentOf(ls) == Some(Trim(name)) && InputsOf(ls) == Values(pairs) && CrLfs(ls) == 0 && NoGoal(ls)
  {
    var l := Line(AGENT + name, true);
    AgentLineSays(name);
    NoCarriageReturn(AGENT, name);
    SaysSnoc([], l);
    assert [] + [l] == [l];
    PairsSay([l], pairs);
  }

  predicate NoGoal(ls: seq<Line>) {
    ls == [] || (NoGoal(ls[..|ls| - 1]) && !Says(ls[|ls| - 1]).Goal?)
  }

  lemma {:induction false} NoGoalAt(ls: seq<Line>, k: nat)
    requires NoGoal(ls) && k < |ls|
    ensures !Says(ls[k]).Goal?
  {
    if k < |ls| - 1 {
      NoGoalAt(ls[..|ls| - 1], k);
    }
  }

  lemma {:induction false} GoalLineIs(ls: seq<Line>, k: nat, g: nat)
    requires k <= g < |ls| && NoGoal(ls[..g]) && Says(ls[g]).Goal?
    ensures GoalLine(ls, k) == g
    decreases g - k
  {
    if k < g {
      NoGoalAt(ls[..g], k);
      GoalLineIs(ls, k + 1, g);
    }
  }

  /** The first line of a text starts with what the text starts with. */
  lemma {:induction false} FirstLineStarts(a: string, b: string) returns (w: string)
    requires a != "" && '\n' !in a
    ensures Lines(a + b) != [] && Lines(a + b)[0].raw == a + w
  {
    if b == "" {
      OneOpenLine(a);
      assert a + b == a;
      w := "";
      assert a + w == a;
    } else {
      FrontOfJoin(a, b);
      w := FirstLineStarts(a, b[..|b| - 1]);
      var ls, c := Lines(a + b[..|b| - 1]), b[|b| - 1];
      if |ls| == 1 && Open(ls) && c != '\n' {
        Assoc(a, w, [c]);
        w := w + [c];
      }
    }
  }

  lemma {:induction false} GoalLineSays(goal: string)
    ensures Lines(GOAL + goal) != [] && Says(Lines(GOAL + goal)[0]).Goal?
  {
    var w := FirstLineStarts(GOAL, goal);
    var l := Lines(GOAL + goal)[0];
    var shown := if l.HasCr() then w[..|w| - 1] else w;
    if l.HasCr() {
      assert w != "";
      FrontOfJoin(GOAL, w);
    }
    assert l.Text() == GOAL + shown;
    TrimDirective(GOAL, shown);
    ReadsGoal(TrimEnd(shown));
  }

  lemma {:induction false} PrintedParts(prompt: string, head: seq<Line>, tail: seq<Line>)
    requires Lines(prompt) == head + tail && head != [] && tail != [] && NoGoal(head) && Says(tail[0]).Goal?
    ensures GoalAfterFirstLine(prompt) && BeforeGoal(prompt) == Joined(head) && FromGoal(prompt) == Joined(tail)
    ensures Missed(prompt) == CrLfs(head)
    ensures Parse(prompt).Some? ==>
              Parse(prompt).value.agent == AgentOf(head) && Parse(prompt).value.inputs == InputsOf(head)
  {
    assert (head + tail)[..|head|] == head && (head + tail)[|head|..] == tail;
    GoalLineIs(head + tail, 0, |head|);
  }

  lemma {:induction false} ReadsParts(before: string, text: string, head: seq<Line>)
    requires Lines(before) == head != [] && before != "" && before[|before| - 1] == '\n' && NoGoal(head)
    requires Lines(text) != [] && Says(Lines(text)[0]).Goal?
    ensures var prompt := before + text;
            && GoalAfterFirstLine(prompt) && BeforeGoal(prompt) == before && FromGoal(prompt) == text
            && Missed(prompt) == CrLfs(head) && CountedOffset(prompt) == ByteLen(before) - CrLfs(head) > 0
            && (Parse(prompt).Some? ==>
                  Parse(prompt).value.agent == AgentOf(head) && Parse(prompt).value.inputs == InputsOf(head))
  {
    LinesOfJoin(before, text);
    PrintedParts(before + text, head, Lines(text));
    LinesJoin(before);
    LinesJoin(text);
    OffsetOfGoal(before + text);
  }

  /** Reading a printed prompt gives back the name, the last value of every key, and the goal. */
  lemma {:induction false} PrintedReadsBack(name: string, pairs: seq<Pair>, goal: string)
    requires PrintableName(name) && AllPrintable(pairs)
    ensures Parse(Printed(name, pairs, goal)) == Some(Parsed(Some(Trim(name)), Trim(GOAL + goal), Values(pairs)))
    ensures CountedOffset(Printed(name, pairs, goal)) == ByteLen(Head(name, pairs))
  {
    LinesOfHead(name, pairs);
    HeadSays(name, pairs);
    GoalLineSays(goal);
    ReadsParts(Head(name, pairs), GOAL + goal, [Line(AGENT + name, true)] + PairLines(pairs));
    GoalIsExactIff(Printed(name, pairs, goal));
  }

  // ----- A goal read wrongly -----

  /** Two empty lines and a line of one character, all ended by a carriage return and a newline. */
  function ThreeLines(c: char): string {
    (("\r" + "\n") + ("\r" + "\n")) + ([c, '\r'] + "\n")
  }

  function ThreeLinesRead(c: char): seq<Line> {
    ([Line("\r", true)] + [Line("\r", true)]) + [Line([c, '\r'], true)]
  }

  lemma {:induction false} LinesOfThree(c: char)
    requires c != '\n'
    ensures Lines(ThreeLines(c)) == ThreeLinesRead(c)
  {
    var empty := Line("\r", true);
    OneLine("\r");
    LinesSnoc("\r" + "\n", [empty], "\r");
    LinesSnoc(("\r" + "\n") + ("\r" + "\n"), [empty] + [empty], [c, '\r']);
  }

  lemma {:induction false} ThreeLinesSay(c: char)
    ensures NoGoal(ThreeLinesRead(c)) && CrLfs(ThreeLinesRead(c)) == 3
  {
    QuietLine([], "");
    QuietLine([Line("\r", true)], "");
    QuietLine([Line("\r", true)] + [Line("\r", true)], [c]);
  }

  lemma {:induction false} QuietLine(ls: seq<Line>, text: string)
    requires |text| <= 1 && NoGoal(ls)
    ensures var all := ls + [Line(text + "\r", true)];
            NoGoal(all) && CrLfs(all) == CrLfs(ls) + 1
  {
    assert Line(text + "\r", true).Text() == text;
    ShortIsNoGoal(Line(text + "\r", true));
    SaysSnoc(ls, Line(text + "\r", true));
  }

  lemma {:induction false} ShortIsNoGoal(l: Line)
    requires |l.Text()| <= 1
    ensures !Says(l).Goal?
  {
    TrimShortens(l.Text());
    if Says(l).Goal? {
      StripPrefixOf(Trim(l.Text()), GOAL);
    }
  }

  lemma {:induction false} TrimShortens(s: string)
    ensures |Trim(s)| <= |s|
  {
    assert Trim(s) <= TrimStart(s);
  }

  lemma {:induction false} GoalCutFour(c: char, text: string)
    requires !IsSpace(c) && text != "" && !IsSpace(text[0]) && !IsSpace(text[|text| - 1])
    ensures var cut := From(ThreeLines(c) + text, 4 + Width(c) - 1);
            if Width(c) == 1 then cut == Some([c, '\r', '\n'] + text) else cut.None?
  {
    var empties, rest := ("\r" + "\n") + ("\r" + "\n"), [c, '\r', '\n'] + text;
    assert [c, '\r'] + "\n" == [c, '\r', '\n'];
    Assoc(empties, [c, '\r', '\n'], text);
    ByteLenJoin("\r" + "\n", "\r" + "\n");
    assert "\r" + "\n" == ['\r', '\n'] && ByteLen(['\r', '\n']) == 2;
    FromAfter(empties, rest, Width(c) - 1);
  }

  lemma {:induction false} FromAfter(a: string, b: string, offset: nat)
    ensures From(a + b, ByteLen(a) + offset) == From(b, offset)
  {
    if a == "" {
      assert a + b == b;
    } else {
      assert (a + b)[1..] == a[1..] + b;
      FromAfter(a[1..], b, offset);
    }
  }

  lemma {:induction false} SpoiledOffset(c: char, text: string)
    requires !IsSpace(c) && Lines(text) != [] && Says(Lines(text)[0]).Goal?
    ensures var prompt := ThreeLines(c) + text;
            GoalAfterFirstLine(prompt) && FromGoal(prompt) == text && CountedOffset(prompt) == 3 + Width(c)
  {
    LinesOfThree(c);
    ThreeLinesSay(c);
    ReadsParts(ThreeLines(c), text, ThreeLinesRead(c));
    ThreeLinesBytes(c);
  }

  lemma {:induction false} SpoilsText(c: char, text: string)
    requires !IsSpace(c) && text != "" && !IsSpace(text[0]) && !IsSpace(text[|text| - 1])
    requires Lines(text) != [] && Says(Lines(text)[0]).Goal?
    ensures var prompt := ThreeLines(c) + text;
            && GoalAfterFirstLine(prompt) && FromGoal(prompt) == text
            && (Width(c) == 1 ==> ParsesToGoal(prompt, [c, '\r', '\n'] + text))
            && (Width(c) > 1 ==> Parse(prompt).None?)
  {
    SpoiledOffset(c, text);
    GoalCutFour(c, text);
    CutGoal(ThreeLines(c) + text, 3 + Width(c));
    TrimKeeps([c, '\r', '\n'] + text);
  }

  /** Three such lines before the goal: the third's last byte joins the goal, or the slice fails inside its character. */
  lemma {:induction false} CarriageReturnsSpoilGoal(c: char)
    requires !IsSpace(c)
    ensures var prompt := ThreeLines(c) + (GOAL + "x");
            && GoalAfterFirstLine(prompt) && FromGoal(prompt) == GOAL + "x"
            && (Width(c) == 1 ==> ParsesToGoal(prompt, [c, '\r', '\n'] + (GOAL + "x")))
            && (Width(c) > 1 ==> Parse(prompt).None?)
  {
    GoalLineSays("x");
    SpoilsText(c, GOAL + "x");
  }

  lemma {:induction false} CutGoal(prompt: string, offset: nat)
    requires GoalAfterFirstLine(prompt) && CountedOffset(prompt) == offset > 0
    ensures match From(prompt, offset)
            case None => Parse(prompt).None?
            case Some(t) => ParsesToGoal(prompt, Trim(t))
  {
  }

  lemma {:induction false} ThreeLinesBytes(c: char)
    ensures ByteLen(ThreeLines(c)) == 6 + Width(c)
  {
    ByteLenJoin(("\r" + "\n") + ("\r" + "\n"), [c, '\r'] + "\n");
    ByteLenJoin("\r" + "\n", "\r" + "\n");
    assert "\r" + "\n" == ['\r', '\n'] && ([c, '\r'] + "\n")[1..] == ['\r', '\n'];
    assert ByteLen(['\r', '\n']) == 2;
  }
}
