/**
 Conversation memory: a queue of messages with side tables that keep the full text of truncated tool results. Results
 are shrunk from the newest to the oldest, and the window slides by dropping whole turns from the front.
 */
module Memories {
  import opened Prelude
  import opened Utf8
  import opened History

  // ----- Truncating one result -----

  function Ascii(s: string): Bytes
    requires forall i | 0 <= i < |s| :: s[i] < 128 as char
  {
    seq(|s|, i requires 0 <= i < |s| => s[i] as int)
  }

  function Decimal(n: nat): (s: Bytes)
    ensures forall i | 0 <= i < |s| :: 48 <= s[i] < 58
  {
    if n < 10 then [48 + n] else Decimal(n / 10) + [48 + n % 10]
  }

  /** The number that a text of decimal digits stands for. */
  function Value(s: Bytes): nat
    requires forall i | 0 <= i < |s| :: 48 <= s[i] < 58
  {
    if s == [] then 0 else 10 * Value(s[..|s| - 1]) + (s[|s| - 1] - 48)
  }

  /** The digits of a number stand for it. */
  lemma {:induction false} DecimalStandsFor(n: nat)
    ensures Value(Decimal(n)) == n
  {
    if n < 10 {
      assert Decimal(n)[..0] == [];
    } else {
      DecimalStandsFor(n / 10);
      assert Decimal(n)[..|Decimal(n)| - 1] == Decimal(n / 10);
    }
  }

  /** The text put between head and tail, naming how many bytes were left out and the call to ask for them. */
  function Marker(omitted: nat, id: Id): Bytes {
    Ascii("\n\n... [") + Decimal(omitted) + Ascii(" bytes omitted, use fetch_full_result(\"") + id
    + Ascii("\") to retrieve] ...\n\n")
  }

  /** `s` cut down to `limit` bytes, `wanted` of them at the head: what is left out grows to whole characters. */
  function HeadEnd(s: Bytes, wanted: nat): (k: nat)
    ensures k <= |s| && IsBoundary(s, k)
  {
    Floor(s, Min(wanted, |s|))
  }

  function TailStart(s: Bytes, limit: nat, wanted: nat): (k: nat)
    ensures k <= |s| && IsBoundary(s, k)
  {
    var head := Min(wanted, |s|);
    var tail := Min(if limit > head then limit - head else 0, |s| - head);
    Ceiling(s, |s| - tail)
  }

  function Min(a: nat, b: nat): nat {
    if a < b then a else b
  }

  function Truncated(s: Bytes, limit: nat, wanted: nat, id: Id): Bytes {
    var h, t := HeadEnd(s, wanted), TailStart(s, limit, wanted);
    s[..h] + Marker(if t >= h then t - h else 0, id) + s[t..]
  }

  /** `cut` is `s` with the bytes from `h` to `t` replaced by a marker that counts exactly them. */
  ghost predicate IsCut(s: Bytes, cut: Bytes, h: nat, t: nat, id: Id) {
    && h <= t <= |s| && IsBoundary(s, h) && IsBoundary(s, t)
    && cut == s[..h] + Marker(t - h, id) + s[t..]
  }

  /** The head and tail of a truncation never overlap, whatever share of the limit the head gets. */
  lemma {:induction false} TruncationIsCut(s: Bytes, limit: nat, wanted: nat, id: Id)
    ensures IsCut(s, Truncated(s, limit, wanted, id), HeadEnd(s, wanted), TailStart(s, limit, wanted), id)
  {
  }

  /**
   How much of a text a truncation keeps: at the head the wanted bytes, or all there are; at the tail what then is left
   of the limit, or of the text; each less at most three bytes for a whole character.
   */
  lemma {:induction false} TruncationKeeps(s: Bytes, limit: nat, wanted: nat)
    requires IsText(s)
    ensures wanted <= |s| ==> wanted - 3 <= HeadEnd(s, wanted) <= wanted
    ensures wanted > |s| ==> HeadEnd(s, wanted) == |s|
    ensures wanted <= limit <= |s| ==> limit - wanted - 3 <= |s| - TailStart(s, limit, wanted) <= limit - wanted
    ensures limit < wanted ==> TailStart(s, limit, wanted) == |s|
    ensures wanted <= |s| < limit ==> |s| - wanted - 3 <= |s| - TailStart(s, limit, wanted) <= |s| - wanted
    ensures limit <= |s| ==> HeadEnd(s, wanted) + |s| - TailStart(s, limit, wanted) <= if wanted > limit then wanted else limit
  {
    BoundaryIsNear(s, Min(wanted, |s|));
    var head := Min(wanted, |s|);
    BoundaryIsNear(s, |s| - Min(if limit > head then limit - head else 0, |s| - head));
  }

  lemma {:induction false} MarkerIsText(omitted: nat, id: Id)
    requires IsText(id)
    ensures IsText(Marker(omitted, id))
  {
    var a, b := Ascii("\n\n... ["), Ascii(" bytes omitted, use fetch_full_result(\"");
    var c := Ascii("\") to retrieve] ...\n\n");
    AsciiIsText(a);
    AsciiIsText(Decimal(omitted));
    AsciiIsText(b);
    AsciiIsText(c);
    JoinTexts(a, Decimal(omitted));
    JoinTexts(a + Decimal(omitted), b);
    JoinTexts(a + Decimal(omitted) + b, id);
    JoinTexts(a + Decimal(omitted) + b + id, c);
  }

  /** A truncated text is still a text: head, tail and what was left out are each whole characters. */
  lemma {:induction false} CutIsText(s: Bytes, cut: Bytes, h: nat, t: nat, id: Id)
    requires IsCut(s, cut, h, t, id) && IsText(s) && IsText(id)
    ensures IsText(s[..h]) && IsText(s[h..t]) && IsText(s[t..]) && IsText(cut)
  {
    CutAtBoundary(s, t);
    CutAtBoundary(s, h);
    assert s[..t][h..] == s[h..t];
    if h == t {
      assert s[h..t] == [];
    } else {
      assert IsBoundary(s[..t], h);
      CutAtBoundary(s[..t], h);
    }
    MarkerIsText(t - h, id);
    JoinTexts(s[..h], Marker(t - h, id));
    JoinTexts(s[..h] + Marker(t - h, id), s[t..]);
  }

  // ----- Shrinking -----

  /** The queue and the side tables as a value. */
  datatype Tables = Tables(messages: seq<Message>, full: map<Id, Bytes>, shrunk: set<Id>)

  /** How a threshold turns a content into a byte limit, and a limit into the wanted head length. */
  datatype Policy = Policy(limit: Bytes -> nat, head: nat -> nat)

  predicate Oversized(m: Message, shrunk: set<Id>, policy: Policy) {
    IsResult(m) && m.toolCallId.value !in shrunk && |m.content| > policy.limit(m.content)
  }

  function Shortened(m: Message, policy: Policy): Message
    requires IsResult(m)
  {
    var limit := policy.limit(m.content);
    m.(content := Truncated(m.content, limit, policy.head(limit), m.toolCallId.value))
  }

  function ShrinkAt(t: Tables, i: nat, policy: Policy): Tables
    requires i < |t.messages|
  {
    var m := t.messages[i];
    if Oversized(m, t.shrunk, policy)
    then Tables(t.messages[i := Shortened(m, policy)], t.full[m.toolCallId.value := m.content], t.shrunk + {m.toolCallId.value})
    else t
  }

  /** Visit the first `n` messages, the last of them first. */
  function ShrinkDown(t: Tables, n: nat, policy: Policy): (t': Tables)
    requires n <= |t.messages|
    ensures |t'.messages| == |t.messages|
    decreases n
  {
    if n == 0 then t else ShrinkDown(ShrinkAt(t, n - 1, policy), n - 1, policy)
  }

  function Shrink(t: Tables, policy: Policy): Tables {
    ShrinkDown(t, |t.messages|, policy)
  }

  // ----- Sliding -----

  predicate BearsId(m: Message) {
    CallIds(m) != [] || m.toolCallId.Some?
  }

  function SystemBlock(ms: seq<Message>): seq<Message> {
    if ms == [] || !ms[0].role.System? then [] else [ms[0]] + SystemBlock(ms[1..])
  }

  function AfterSystem(ms: seq<Message>): (rest: seq<Message>)
    ensures |rest| <= |ms|
  {
    if ms == [] || !ms[0].role.System? then ms else AfterSystem(ms[1..])
  }

  /** Dropping stops at the first user message once some id-bearing message was dropped (`seen`), or at the end. */
  predicate StopsAt(ms: seq<Message>, seen: bool) {
    ms == [] || (ms[0].role.User? && seen)
  }

  function Dropped(ms: seq<Message>, seen: bool): seq<Message> {
    if StopsAt(ms, seen) then [] else [ms[0]] + Dropped(ms[1..], seen || BearsId(ms[0]))
  }

  function Kept(ms: seq<Message>, seen: bool): (kept: seq<Message>)
    ensures |kept| <= |ms|
    ensures !StopsAt(ms, seen) ==> |kept| < |ms|
  {
    if StopsAt(ms, seen) then ms else Kept(ms[1..], seen || BearsId(ms[0]))
  }

  function IdsOf(m: Message): seq<Id> {
    CallIds(m) + if m.toolCallId.Some? then [m.toolCallId.value] else []
  }

  function DroppedIds(ms: seq<Message>): seq<Id> {
    if ms == [] then [] else IdsOf(ms[0]) + DroppedIds(ms[1..])
  }

  function CalledIds(ms: seq<Message>): set<Id> {
    if ms == [] then {} else (set id | id in CallIds(ms[0])) + CalledIds(ms[1..])
  }

  /** The retain pass: results whose call is not in `called` go. */
  function Retained(ms: seq<Message>, called: set<Id>): (kept: seq<Message>)
    ensures |kept| <= |ms|
  {
    if ms == [] then []
    else if IsResult(ms[0]) && ms[0].toolCallId.value !in called then Retained(ms[1..], called)
    else [ms[0]] + Retained(ms[1..], called)
  }

  function Slide(t: Tables): Tables {
    var rest := AfterSystem(t.messages);
    var kept := Kept(rest, false);
    var gone := set id | id in DroppedIds(Dropped(rest, false));
    Tables(SystemBlock(t.messages) + Retained(kept, CalledIds(kept)), t.full - gone, t.shrunk - gone)
  }

  // ----- The object -----

  /** What a compaction leaves of the history before it. */
  function DigestMessage(digest: Bytes, reasoning: Option<Bytes>): Message {
    Message(Tool, Ascii("[Compaction digest] ") + digest, None, None, reasoning)
  }

  class Memory {
    var messages: seq<Message>
    var fullResults: map<Id, Bytes>
    var shrunkMessages: set<Id>
    var pinned: seq<Message>

    function View(): Tables
      reads this
    {
      Tables(messages, fullResults, shrunkMessages)
    }

    constructor ()
      ensures View() == Tables([], map[], {}) && pinned == []
    {
      messages, fullResults, shrunkMessages, pinned := [], map[], {}, [];
    }

    method AddMessage(m: Message)
      modifies this`messages
      ensures messages == old(messages) + [m]
    {
      messages := messages + [m];
    }

    method PinMessage(m: Message)
      modifies this`pinned
      ensures pinned == old(pinned) + [m]
    {
      pinned := pinned + [m];
    }

    method GetAll() returns (all: seq<Message>)
      ensures all == pinned + messages
    {
      all := pinned + messages;
    }

    method GetFullResult(id: Id) returns (r: Option<Bytes>)
      ensures r == if id in fullResults then Some(fullResults[id]) else None
    {
      r := if id in fullResults then Some(fullResults[id]) else None;
    }

    /** Replace the whole queue by one digest; the stored originals stay, the shrink marks go. */
    method Compact(digest: Bytes, reasoning: Option<Bytes>)
      modifies this`messages, this`shrunkMessages
      ensures messages == [DigestMessage(digest, reasoning)]
      ensures shrunkMessages == {}
    {
      messages := [];
      shrunkMessages := {};
      messages := messages + [DigestMessage(digest, reasoning)];
    }

    method ShrinkLargeResults(policy: Policy)
      modifies this`messages, this`fullResults, this`shrunkMessages
      ensures View() == Shrink(old(View()), policy)
    {
      var i: nat := |messages|;
      while i > 0
        invariant i <= |messages|
        invariant ShrinkDown(View(), i, policy) == Shrink(old(View()), policy)
      {
        i := i - 1;
        var m := messages[i];
        if m.role.Tool? && m.toolCallId.Some? {
          var id := m.toolCallId.value;
          if id !in shrunkMessages {
            var limit := policy.limit(m.content);
            if |m.content| > limit {
              fullResults := fullResults[id := m.content];
              var text := Truncate(m.content, limit, policy.head(limit), id);
              messages := messages[i := m.(content := text)];
              shrunkMessages := shrunkMessages + {id};
            }
          }
        }
      }
    }

    /** Where head and tail of a result meet the cut; the head gets `wanted` bytes, the tail what is left of the limit. */
    static method Bounds(content: Bytes, limit: nat, wanted: nat) returns (headEnd: nat, tailStart: nat)
      ensures headEnd == HeadEnd(content, wanted) && tailStart == TailStart(content, limit, wanted)
      ensures headEnd <= tailStart
    {
      var headLen := Min(wanted, |content|);
      var tailLen := Min(if limit > headLen then limit - headLen else 0, |content| - headLen);
      headEnd := FloorCharBoundary(content, headLen);
      tailStart := CeilCharBoundary(content, |content| - tailLen);
    }

    /** Head and tail of a result around a marker. */
    static method Truncate(content: Bytes, limit: nat, wanted: nat, id: Id) returns (text: Bytes)
      ensures text == Truncated(content, limit, wanted, id)
    {
      var headEnd, tailStart := Bounds(content, limit, wanted);
      var omitted := |content| - headEnd - (|content| - tailStart);
      text := content[..headEnd] + Marker(omitted, id) + content[tailStart..];
    }

    /** Take the leading system messages off the queue; they are put back after the slide. */
    method StashSystem() returns (saved: seq<Message>)
      modifies this`messages
      ensures saved == SystemBlock(old(messages)) && messages == AfterSystem(old(messages))
    {
      saved := [];
      while messages != [] && messages[0].role.System?
        invariant saved + SystemBlock(messages) == SystemBlock(old(messages))
        invariant AfterSystem(messages) == AfterSystem(old(messages))
        decreases |messages|
      {
        Assoc(saved, [messages[0]], SystemBlock(messages[1..]));
        saved := saved + [messages[0]];
        messages := messages[1..];
      }
    }

    /** Drop from the front until the stop, collecting the ids of calls and results that go. */
    method DropTurn() returns (dropped: seq<Id>)
      modifies this`messages
      ensures messages == Kept(old(messages), false)
      ensures dropped == DroppedIds(Dropped(old(messages), false))
    {
      dropped := [];
      while messages != []
        invariant Kept(messages, dropped != []) == Kept(old(messages), false)
        invariant dropped + DroppedIds(Dropped(messages, dropped != [])) == DroppedIds(Dropped(old(messages), false))
        decreases |messages|
      {
        var front := messages[0];
        if front.role.User? && dropped != [] {
          break;
        }
        DroppedStep(messages, dropped);
        dropped := dropped + IdsOf(front);
        messages := messages[1..];
      }
    }

    method SlideWindow()
      modifies this`messages, this`fullResults, this`shrunkMessages
      ensures View() == Slide(old(View()))
    {
      var saved := StashSystem();
      var dropped := DropTurn();
      messages := Retained(messages, CalledIds(messages));
      fullResults := fullResults - (set id | id in dropped);
      shrunkMessages := shrunkMessages - (set id | id in dropped);
      messages := saved + messages;
    }
  }

  lemma {:induction false} DroppedStep(ms: seq<Message>, dropped: seq<Id>)
    requires !StopsAt(ms, dropped != [])
    ensures dropped + DroppedIds(Dropped(ms, dropped != []))
            == dropped + IdsOf(ms[0]) + DroppedIds(Dropped(ms[1..], dropped + IdsOf(ms[0]) != []))
    ensures dropped + IdsOf(ms[0]) != [] <==> dropped != [] || BearsId(ms[0])
  {
    var seen := dropped != [] || BearsId(ms[0]);
    assert BearsId(ms[0]) <==> IdsOf(ms[0]) != [];
    assert Dropped(ms, dropped != [])[1..] == Dropped(ms[1..], seen);
    Assoc(dropped, IdsOf(ms[0]), DroppedIds(Dropped(ms[1..], seen)));
  }
}
