/** Text operations shared by the scanners: searching, trimming, and what first occurrences mean. */
module Texts {
  import opened Prelude

  /** White space as `trim` sees it: the Unicode White_Space characters. */
  predicate IsSpace(c: char) {
    '\t' <= c <= '\r' || c == ' ' || c == '\U{85}' || c == '\U{A0}' || c == '\U{1680}'
    || '\U{2000}' <= c <= '\U{200A}' || c == '\U{2028}' || c == '\U{2029}' || c == '\U{202F}' || c == '\U{205F}' || c == '\U{3000}'
  }

  function TrimStart(s: string): (t: string)
    ensures t == "" || !IsSpace(t[0])
    ensures |t| <= |s|
  {
    if s == "" || !IsSpace(s[0]) then s else TrimStart(s[1..])
  }

  function TrimEnd(s: string): (t: string)
    ensures t <= s && (t == "" || !IsSpace(t[|t| - 1]))
  {
    if s == "" || !IsSpace(s[|s| - 1]) then s else TrimEnd(s[..|s| - 1])
  }

  function Trim(s: string): string {
    TrimEnd(TrimStart(s))
  }

  /** The text around the first occurrence of `pat`. */
  function Split(s: string, pat: string): (r: Option<(string, string)>)
    requires pat != ""
    ensures r.Some? ==> |r.value.0| + |pat| + |r.value.1| == |s|
  {
    if pat <= s then Some(("", s[|pat|..]))
    else if s == "" then None
    else
      match Split(s[1..], pat)
      case None => None
      case Some((before, after)) => Some(([s[0]] + before, after))
  }

  ghost predicate Contains(s: string, pat: string) {
    exists a, b :: s == a + pat + b
  }

  lemma {:induction false} SplitSound(s: string, pat: string)
    requires pat != "" && Split(s, pat).Some?
    ensures s == Split(s, pat).value.0 + pat + Split(s, pat).value.1
  {
    if !(pat <= s) {
      SplitSound(s[1..], pat);
    }
  }

  /** An occurrence is found, and what follows the first one ends with what follows this one. */
  lemma {:induction false} SplitFinds(a: string, pat: string, b: string) returns (skipped: string)
    requires pat != ""
    ensures Split(a + pat + b, pat).Some?
    ensures Split(a + pat + b, pat).value.1 == skipped + b
    decreases |a|
  {
    var s := a + pat + b;
    assert a == "" ==> s == pat + b;
    if pat <= s {
      AfterPrefix(a, pat, b);
      skipped := (a + pat)[|pat|..];
    } else {
      assert s[1..] == a[1..] + pat + b;
      skipped := SplitFinds(a[1..], pat, b);
    }
  }

  lemma {:induction false} ContainsIff(s: string, pat: string)
    requires pat != ""
    ensures Split(s, pat).Some? <==> Contains(s, pat)
  {
    if Split(s, pat).Some? {
      SplitSound(s, pat);
    }
    if Contains(s, pat) {
      var a, b :| s == a + pat + b;
      var _ := SplitFinds(a, pat, b);
    }
  }

  lemma {:induction false} AfterPrefix(a: string, pat: string, b: string)
    ensures (a + pat + b)[|pat|..] == (a + pat)[|pat|..] + b
  {
  }

  /** No occurrence of `pat` starts inside `a`, when `s` follows it. */
  predicate Quiet(a: string, s: string, pat: string) {
    a == "" || (!(pat <= a + s) && Quiet(a[1..], s, pat))
  }

  lemma {:induction false} NothingBefore(s: string)
    ensures "" + s == s
  {
  }

  lemma {:induction false} HeadOfJoin(a: string, s: string)
    requires a != ""
    ensures (a + s)[..1] == a[..1] && (a + s)[1..] == a[1..] + s && a[..1] + (a[1..] + s) == a + s
  {
  }

  lemma {:induction false} SplitStep(s: string, pat: string)
    requires pat != "" && s != "" && !(pat <= s)
    ensures match Split(s[1..], pat)
            case None => Split(s, pat).None?
            case Some((before, after)) => Split(s, pat) == Some((s[..1] + before, after))
  {
    assert s[..1] == [s[0]];
  }

  /** Text in which no occurrence starts does not delay the search. */
  lemma {:induction false} SplitSkips(a: string, s: string, pat: string)
    requires pat != "" && Quiet(a, s, pat)
    ensures match Split(s, pat)
            case None => Split(a + s, pat).None?
            case Some((before, after)) => Split(a + s, pat) == Some((a + before, after))
    decreases |a|
  {
    if a == "" {
      NothingBefore(s);
      if Split(s, pat).Some? {
        NothingBefore(Split(s, pat).value.0);
      }
    } else {
      HeadOfJoin(a, s);
      SplitStep(a + s, pat);
      SplitSkips(a[1..], s, pat);
      if Split(s, pat).Some? {
        HeadOfJoin(a, Split(s, pat).value.0);
      }
    }
  }

  lemma {:induction false} QuietWithoutFirst(a: string, s: string, pat: string)
    requires pat != "" && pat[0] !in a
    ensures Quiet(a, s, pat)
  {
    if a != "" {
      assert a[0] in a;
      QuietWithoutFirst(a[1..], s, pat);
    }
  }

  /** Text that neither starts nor ends with white space is not changed by trimming. */
  lemma {:induction false} TrimKeeps(s: string)
    requires s == "" || (!IsSpace(s[0]) && !IsSpace(s[|s| - 1]))
    ensures Trim(s) == s
  {
  }

  predicate AllSpace(s: string) {
    forall c | c in s :: IsSpace(c)
  }

  lemma {:induction false} SpaceBefore(a: string, s: string)
    requires AllSpace(a)
    ensures TrimStart(a + s) == TrimStart(s)
  {
    if a == "" {
      assert a + s == s;
    } else {
      assert a[0] in a && forall c | c in a[1..] :: c in a;
      HeadOfJoin(a, s);
      SpaceBefore(a[1..], s);
    }
  }

  lemma {:induction false} SpaceBehind(s: string, b: string)
    requires AllSpace(b)
    ensures TrimEnd(s + b) == TrimEnd(s)
  {
    if b == "" {
      assert s + b == s;
    } else {
      var n := |b| - 1;
      assert b[n] in b && forall c | c in b[..n] :: c in b;
      assert (s + b)[..|s + b| - 1] == s + b[..n];
      SpaceBehind(s, b[..n]);
    }
  }

  /** Trimming takes the white space at both ends, and nothing else. */
  lemma {:induction false} TrimTakes(a: string, core: string, b: string)
    requires AllSpace(a) && AllSpace(b) && (core == "" || (!IsSpace(core[0]) && !IsSpace(core[|core| - 1])))
    ensures Trim(a + (core + b)) == core
  {
    SpaceBefore(a, core + b);
    SpaceBehind(core, b);
    if core == "" {
      assert core + b == b && b + "" == b;
      SpaceBefore(b, "");
    }
  }
}
