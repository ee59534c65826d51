/** `@name` references in a text, as byte offsets: found by one scan, at word boundaries, each name once. */
module Mentions {
  import opened Prelude

  const AT: byte := '@' as int

  /** An ASCII letter or digit. */
  predicate IsAlnum(b: byte) {
    '0' as int <= b <= '9' as int || 'A' as int <= b <= 'Z' as int || 'a' as int <= b <= 'z' as int
  }

  predicate IsIdent(b: byte) {
    IsAlnum(b) || b == '_' as int || b == '-' as int
  }

  /** An agent name: a letter or digit, then letters, digits, underscores and hyphens. */
  predicate IsValidAgentName(name: Bytes) {
    name != [] && IsAlnum(name[0]) && forall b | b in name[1..] :: IsIdent(b)
  }

  datatype Mention = Mention(name: Bytes, start: nat, end: nat)

  // ----- What a mention is -----

  /** The end of the run of identifier characters starting at `j`. */
  function RunEnd(text: Bytes, j: nat): (e: nat)
    requires j <= |text|
    ensures j <= e <= |text|
    ensures forall k | j <= k < e :: IsIdent(text[k])
    ensures e < |text| ==> !IsIdent(text[e])
    decreases |text| - j
  {
    if j == |text| || !IsIdent(text[j]) then j else RunEnd(text, j + 1)
  }

  /** A mention starts at `i`: an `@` not preceded by an identifier character and followed by a letter or digit. */
  predicate MentionAt(text: Bytes, i: nat) {
    i + 1 < |text| && text[i] == AT && (i == 0 || !IsIdent(text[i - 1])) && IsAlnum(text[i + 1])
  }

  /** The mention at `i`: its name is the whole run of identifier characters after the `@`. */
  function MentionOf(text: Bytes, i: nat): Mention
    requires MentionAt(text, i)
  {
    Mention(text[i + 1..RunEnd(text, i + 1)], i, RunEnd(text, i + 1))
  }

  /** `m` is the first mention of its name. */
  ghost predicate IsFirst(text: Bytes, m: Mention) {
    && MentionAt(text, m.start) && m == MentionOf(text, m.start)
    && forall k | 0 <= k < m.start && MentionAt(text, k) :: MentionOf(text, k).name != m.name
  }

  /** The text mentions this name somewhere before `n`. */
  ghost predicate Mentioned(text: Bytes, n: nat, name: Bytes) {
    exists i | 0 <= i < n :: MentionAt(text, i) && MentionOf(text, i).name == name
  }

  function Names(ms: seq<Mention>): set<Bytes> {
    if ms == [] then {} else Names(ms[..|ms| - 1]) + {ms[|ms| - 1].name}
  }

  lemma {:induction false} NamesSnoc(ms: seq<Mention>, m: Mention)
    ensures Names(ms + [m]) == Names(ms) + {m.name}
  {
    assert (ms + [m])[..|ms|] == ms;
  }

  lemma {:induction false} NameInNames(ms: seq<Mention>, m: Mention)
    requires m in ms
    ensures m.name in Names(ms)
  {
    if m != ms[|ms| - 1] {
      assert m in ms[..|ms| - 1];
      NameInNames(ms[..|ms| - 1], m);
    }
  }

  // ----- The scan -----

  /** What the scan has collected when it has passed position `n`. */
  function Scanned(text: Bytes, n: nat): seq<Mention>
    decreases n
  {
    if n == 0 then []
    else
      var before := Scanned(text, n - 1);
      if MentionAt(text, n - 1) && MentionOf(text, n - 1).name !in Names(before)
      then before + [MentionOf(text, n - 1)] else before
  }

  lemma {:induction false} NameIsValid(text: Bytes, i: nat)
    requires MentionAt(text, i)
    ensures IsValidAgentName(MentionOf(text, i).name)
    ensures RunEnd(text, i + 1) > i + 1
  {
    var e := RunEnd(text, i + 1);
    assert IsIdent(text[i + 1]);
    var name := text[i + 1..e];
    assert name[0] == text[i + 1];
    assert forall k | 0 <= k < |name[1..]| :: name[1..][k] == text[i + 2 + k];
  }

  /** Nothing inside a run of identifier characters, after its `@`, starts a mention. */
  lemma {:induction false} NothingInsideRun(text: Bytes, i: nat, j: nat)
    requires i < j <= |text| && forall k | i < k < j :: IsIdent(text[k])
    ensures Scanned(text, j) == Scanned(text, i + 1)
    decreases j
  {
    if j > i + 1 {
      assert IsIdent(text[j - 1]);
      NothingInsideRun(text, i, j - 1);
    }
  }

  /** The scan's test for one `@`, made after the run has been read, is the definition of a mention. */
  method ScanRun(text: Bytes, i: nat, out: seq<Mention>) returns (j: nat, more: seq<Mention>)
    requires i < |text| && text[i] == AT && (i == 0 || !IsIdent(text[i - 1])) && (i + 1 < |text| ==> IsAlnum(text[i + 1]))
    requires out == Scanned(text, i)
    ensures i < j <= |text| && more == Scanned(text, j)
  {
    j := i + 1;
    while j < |text| && IsIdent(text[j])
      invariant i < j <= |text| && RunEnd(text, i + 1) == RunEnd(text, j)
      invariant forall k | i < k < j :: IsIdent(text[k])
    {
      j := j + 1;
    }
    var name := text[i + 1..j];
    more := out;
    if name != [] && IsValidAgentName(name) && name !in Names(out) {
      more := out + [Mention(name, i, j)];
    }
    if MentionAt(text, i) {
      NameIsValid(text, i);
    }
    NothingInsideRun(text, i, j);
  }

  method ExtractMentions(text: Bytes) returns (out: seq<Mention>)
    ensures out == Scanned(text, |text|)
  {
    out := [];
    var i: nat := 0;
    while i < |text|
      invariant i <= |text| && out == Scanned(text, i)
    {
      var prevOk := i == 0 || !IsIdent(text[i - 1]);
      if text[i] != AT || !prevOk || (i + 1 < |text| && !IsAlnum(text[i + 1])) {
        i := i + 1;
      } else {
        i, out := ScanRun(text, i, out);
      }
    }
  }

  // ----- The list is sound and complete -----

  lemma {:induction false} MentionedSnoc(text: Bytes, n: nat, name: Bytes)
    ensures Mentioned(text, n + 1, name) <==>
              Mentioned(text, n, name) || (MentionAt(text, n) && MentionOf(text, n).name == name)
  {
    if Mentioned(text, n + 1, name) {
      var i :| 0 <= i < n + 1 && MentionAt(text, i) && MentionOf(text, i).name == name;
      assert i < n ==> Mentioned(text, n, name);
    }
  }

  lemma {:induction false} NamesStep(text: Bytes, n: nat)
    requires n > 0
    ensures Names(Scanned(text, n)) ==
              Names(Scanned(text, n - 1)) + if MentionAt(text, n - 1) then {MentionOf(text, n - 1).name} else {}
  {
    if MentionAt(text, n - 1) {
      NamesSnoc(Scanned(text, n - 1), MentionOf(text, n - 1));
    }
  }

  lemma {:induction false} ScannedNames(text: Bytes, n: nat, name: Bytes)
    ensures name in Names(Scanned(text, n)) <==> Mentioned(text, n, name)
  {
    if n > 0 {
      ScannedNames(text, n - 1, name);
      MentionedSnoc(text, n - 1, name);
      NamesStep(text, n);
    }
  }

  lemma {:induction false} ScannedIsFirst(text: Bytes, n: nat, a: nat)
    requires a < |Scanned(text, n)|
    ensures IsFirst(text, Scanned(text, n)[a]) && Scanned(text, n)[a].start < n
  {
    if a < |Scanned(text, n - 1)| {
      ScannedIsFirst(text, n - 1, a);
    } else {
      var m := MentionOf(text, n - 1);
      ScannedNames(text, n - 1, m.name);
    }
  }

  lemma {:induction false} ScannedIncreases(text: Bytes, n: nat, a: nat, b: nat)
    requires a < b < |Scanned(text, n)|
    ensures Scanned(text, n)[a].start < Scanned(text, n)[b].start
  {
    if b < |Scanned(text, n - 1)| {
      ScannedIncreases(text, n - 1, a, b);
    } else {
      ScannedIsFirst(text, n - 1, a);
    }
  }

  /** Every entry is the first mention of its name, starts increase, and every name mentioned is listed once. */
  lemma {:induction false} ListIsExact(text: Bytes, ms: seq<Mention>)
    requires ms == Scanned(text, |text|)
    ensures forall m | m in ms :: IsFirst(text, m) && IsValidAgentName(m.name)
    ensures forall a, b | 0 <= a < b < |ms| :: ms[a].start < ms[b].start && ms[a].name != ms[b].name
    ensures forall i | MentionAt(text, i) :: MentionOf(text, i).name in Names(ms)
  {
    forall m | m in ms ensures IsFirst(text, m) && IsValidAgentName(m.name) {
      var a :| 0 <= a < |ms| && ms[a] == m;
      ScannedIsFirst(text, |text|, a);
      NameIsValid(text, m.start);
    }
    forall a, b | 0 <= a < b < |ms| ensures ms[a].start < ms[b].start && ms[a].name != ms[b].name {
      ScannedIncreases(text, |text|, a, b);
      ScannedIsFirst(text, |text|, b);
      ScannedIsFirst(text, |text|, a);
    }
    forall i | MentionAt(text, i) ensures MentionOf(text, i).name in Names(ms) {
      ScannedNames(text, |text|, MentionOf(text, i).name);
    }
  }

  /** The run of identifier characters that starts at `j` is `name`, if that is all identifiers and no more follow. */
  lemma {:induction false} RunIs(text: Bytes, j: nat, e: nat)
    requires j <= e <= |text| && (forall k | j <= k < e :: IsIdent(text[k])) && (e < |text| ==> !IsIdent(text[e]))
    ensures RunEnd(text, j) == e
    decreases e - j
  {
    if j < e {
      RunIs(text, j + 1, e);
    }
  }

  /** `@name` in a text, with no identifier character on either side, mentions that name; behind one it mentions nothing. */
  lemma {:induction false} AtNameMentions(before: Bytes, name: Bytes, after: Bytes)
    requires IsValidAgentName(name) && (after == [] || !IsIdent(after[0]))
    ensures var text := before + [AT] + name + after;
            if before == [] || !IsIdent(before[|before| - 1])
            then MentionAt(text, |before|) && MentionOf(text, |before|) == Mention(name, |before|, |before| + 1 + |name|)
            else !MentionAt(text, |before|)
  {
    var text, at := before + [AT] + name + after, |before|;
    assert text[at] == AT && text[at + 1] == name[0];
    assert before != [] ==> text[at - 1] == before[at - 1];
    forall k | at + 1 <= k < at + 1 + |name| ensures IsIdent(text[k]) {
      assert text[k] == name[k - at - 1];
      assert k > at + 1 ==> name[k - at - 1] == name[1..][k - at - 2];
    }
    RunIs(text, at + 1, at + 1 + |name|);
    assert text[at + 1..at + 1 + |name|] == name;
  }

  // ----- Resolving -----

  datatype Resolution = Nobody | One(mention: Mention) | Ambiguous(names: seq<Bytes>)

  /** The known names that the text mentions. */
  ghost function KnownMentions(text: Bytes, known: set<Bytes>): set<Bytes> {
    set name | name in known && Mentioned(text, |text|, name)
  }

  function KnownOnly(ms: seq<Mention>, known: set<Bytes>): (hits: seq<Mention>)
    ensures forall m | m in hits :: m in ms
  {
    if ms == [] then []
    else
      var before := KnownOnly(ms[..|ms| - 1], known);
      if ms[|ms| - 1].name in known then before + [ms[|ms| - 1]] else before
  }

  /** Filtering keeps exactly the known names, and keeps names distinct. */
  lemma {:induction false} KnownOnlyNames(ms: seq<Mention>, known: set<Bytes>)
    ensures Names(KnownOnly(ms, known)) == Names(ms) * known
    ensures |Names(ms)| == |ms| ==> |Names(KnownOnly(ms, known))| == |KnownOnly(ms, known)|
  {
    if ms != [] {
      var before := ms[..|ms| - 1];
      KnownOnlyNames(before, known);
      NamesSnoc(KnownOnly(before, known), ms[|ms| - 1]);
      NamesAtMost(before);
    }
  }

  lemma {:induction false} NamesAtMost(ms: seq<Mention>)
    ensures |Names(ms)| <= |ms|
  {
    if ms != [] {
      NamesAtMost(ms[..|ms| - 1]);
    }
  }

  lemma {:induction false} ScannedIsDistinct(text: Bytes, n: nat)
    ensures |Names(Scanned(text, n))| == |Scanned(text, n)|
  {
    if n > 0 {
      ScannedIsDistinct(text, n - 1);
      if MentionAt(text, n - 1) {
        NamesSnoc(Scanned(text, n - 1), MentionOf(text, n - 1));
      }
    }
  }

  function NameList(ms: seq<Mention>): (names: seq<Bytes>)
    ensures |names| == |ms|
    ensures forall name :: name in names <==> name in Names(ms)
  {
    if ms == [] then [] else NameList(ms[..|ms| - 1]) + [ms[|ms| - 1].name]
  }

  /** Nobody, exactly one known name (with its first mention), or the list of the several known names. */
  method ResolveMention(text: Bytes, known: set<Bytes>) returns (r: Resolution)
    ensures r.Nobody? <==> KnownMentions(text, known) == {}
    ensures r.One? <==> |KnownMentions(text, known)| == 1
    ensures r.One? ==> r.mention.name in KnownMentions(text, known) && IsFirst(text, r.mention)
    ensures r.Ambiguous? ==> |r.names| == |KnownMentions(text, known)|
    ensures r.Ambiguous? ==> forall name :: name in r.names <==> name in KnownMentions(text, known)
  {
    var ms := ExtractMentions(text);
    var hits := KnownOnly(ms, known);
    KnownOnlyNames(ms, known);
    ScannedIsDistinct(text, |text|);
    forall name ensures name in Names(ms) <==> Mentioned(text, |text|, name) {
      ScannedNames(text, |text|, name);
    }
    assert Names(hits) == KnownMentions(text, known);
    if |hits| == 0 {
      r := Nobody;
    } else if |hits| == 1 {
      assert hits[0] in hits;
      NameInNames(hits, hits[0]);
      ListIsExact(text, ms);
      r := One(hits[0]);
    } else {
      r := Ambiguous(NameList(hits));
    }
  }
}
