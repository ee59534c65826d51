/** UTF-8 texts as byte strings (section 4 of RFC 3629), and cutting them without splitting a character. */
module Utf8 {
  import opened Prelude

  predicate IsContinuation(b: byte) {
    0x80 <= b < 0xC0
  }

  /** Whether `second` may follow the lead byte `lead` of a three- or four-byte character. */
  predicate SecondFits(lead: byte, second: byte) {
    IsContinuation(second)
    && (lead == 0xE0 ==> 0xA0 <= second)
    && (lead == 0xED ==> second < 0xA0)
    && (lead == 0xF0 ==> 0x90 <= second)
    && (lead == 0xF4 ==> second < 0x90)
  }

  /** How long the character at the start of `s` is according to its lead byte; 0 when it cannot start one. */
  function LeadLength(lead: byte): (n: nat)
    ensures n <= 4
  {
    if lead < 0x80 then 1
    else if 0xC2 <= lead < 0xE0 then 2
    else if 0xE0 <= lead < 0xF0 then 3
    else if 0xF0 <= lead < 0xF5 then 4
    else 0
  }

  ghost predicate StartsWithChar(s: Bytes, n: nat) {
    && 0 < n <= |s|
    && LeadLength(s[0]) == n
    && (n > 1 ==> SecondFits(s[0], s[1]))
    && forall i | 1 <= i < n :: IsContinuation(s[i])
  }

  ghost predicate IsText(s: Bytes) {
    s == [] || (StartsWithChar(s, LeadLength(s[0])) && IsText(s[LeadLength(s[0])..]))
  }

  predicate IsBoundary(s: Bytes, k: nat) {
    k == 0 || k == |s| || (k < |s| && !IsContinuation(s[k]))
  }

  lemma {:induction false} CharSurvives(s: Bytes, t: Bytes, n: nat)
    requires StartsWithChar(s, n) && n <= |t| && t[..n] == s[..n]
    ensures StartsWithChar(t, n) && LeadLength(t[0]) == n
  {
    assert forall i | 0 <= i < n :: t[i] == t[..n][i] == s[..n][i] == s[i];
  }

  /** Cutting a text at a boundary leaves two texts. */
  lemma {:induction false} CutAtBoundary(s: Bytes, k: nat)
    requires IsText(s) && k <= |s| && IsBoundary(s, k)
    ensures IsText(s[..k]) && IsText(s[k..])
    decreases |s|
  {
    if k == 0 {
      assert s[0..] == s;
    } else {
      var n := LeadLength(s[0]);
      assert k >= n;
      CutAtBoundary(s[n..], k - n);
      CharSurvives(s, s[..k], n);
      assert s[..k][n..] == s[n..][..k - n];
      assert s[n..][k - n..] == s[k..];
    }
  }

  lemma {:induction false} DropOfJoin<T>(a: seq<T>, b: seq<T>, n: nat)
    requires n <= |a|
    ensures (a + b)[n..] == a[n..] + b
  {
  }

  /** Texts joined end to end make a text. */
  lemma {:induction false} JoinTexts(a: Bytes, b: Bytes)
    requires IsText(a) && IsText(b)
    ensures IsText(a + b)
    decreases |a|
  {
    if a == [] {
      assert a + b == b;
    } else {
      var n := LeadLength(a[0]);
      JoinTexts(a[n..], b);
      CharSurvives(a, a + b, n);
      DropOfJoin(a, b, n);
    }
  }

  lemma {:induction false} AsciiIsText(s: Bytes)
    requires forall i | 0 <= i < |s| :: s[i] < 0x80
    ensures IsText(s)
  {
    if s == [] {
    } else {
      AsciiIsText(s[1..]);
    }
  }

  function Floor(s: Bytes, at: nat): (k: nat)
    requires at <= |s|
    ensures k <= at && IsBoundary(s, k)
    ensures forall j | k < j <= at :: !IsBoundary(s, j)
    decreases at
  {
    if IsBoundary(s, at) then at else Floor(s, at - 1)
  }

  function Ceiling(s: Bytes, at: nat): (k: nat)
    requires at <= |s|
    ensures at <= k <= |s| && IsBoundary(s, k)
    ensures forall j | at <= j < k :: !IsBoundary(s, j)
    decreases |s| - at
  {
    if IsBoundary(s, at) then at else Ceiling(s, at + 1)
  }

  /** The greatest character boundary at or before `max`; a limit past the end is the end. */
  method FloorCharBoundary(s: Bytes, max: nat) returns (idx: nat)
    ensures idx == if max >= |s| then |s| else Floor(s, max)
  {
    if max >= |s| {
      return |s|;
    }
    idx := max;
    while idx > 0 && !IsBoundary(s, idx)
      invariant idx <= max && Floor(s, max) == Floor(s, idx)
    {
      idx := idx - 1;
    }
  }

  /** The least character boundary at or after `min`. */
  method CeilCharBoundary(s: Bytes, min: nat) returns (idx: nat)
    ensures idx == if min >= |s| then |s| else Ceiling(s, min)
  {
    if min >= |s| {
      return |s|;
    }
    idx := min;
    while idx < |s| && !IsBoundary(s, idx)
      invariant min <= idx <= |s| && Ceiling(s, min) == Ceiling(s, idx)
    {
      idx := idx + 1;
    }
  }

  /** In a text a boundary is never more than three bytes away in either direction, so a cut loses fewer than four bytes. */
  lemma {:induction false} BoundaryIsNear(s: Bytes, at: nat)
    requires IsText(s) && at <= |s|
    ensures at - Floor(s, at) <= 3 && Ceiling(s, at) - at <= 3
    decreases |s|
  {
    if 0 < at < |s| {
      var n := LeadLength(s[0]);
      if at < n {
        CharEndsAtBoundary(s);
      } else {
        BoundaryIsNear(s[n..], at - n);
        BoundaryShifts(s, n, Floor(s[n..], at - n));
        BoundaryShifts(s, n, Ceiling(s[n..], at - n));
      }
    }
  }

  lemma {:induction false} CharEndsAtBoundary(s: Bytes)
    requires IsText(s) && s != []
    ensures LeadLength(s[0]) <= |s| && IsBoundary(s, LeadLength(s[0]))
  {
    var n := LeadLength(s[0]);
    if n < |s| {
      assert s[n] == s[n..][0] && StartsWithChar(s[n..], LeadLength(s[n]));
    }
  }

  lemma {:induction false} BoundaryShifts(s: Bytes, n: nat, k: nat)
    requires IsText(s) && s != [] && n == LeadLength(s[0]) && k <= |s[n..]| && IsBoundary(s[n..], k)
    ensures IsBoundary(s, n + k)
  {
    CharEndsAtBoundary(s);
    assert k < |s[n..]| ==> s[n..][k] == s[n + k];
  }

  // ----- Texts are encoded characters -----

  /** The Unicode scalar values. */
  predicate IsScalar(c: nat) {
    c < 0xD800 || 0xE000 <= c < 0x110000
  }

  /** The bytes of a character (section 3 of RFC 3629). */
  function EncodeScalar(c: nat): (s: Bytes)
    requires IsScalar(c)
    ensures 1 <= |s| <= 4
  {
    if c < 0x80 then [c]
    else if c < 0x800 then [0xC0 + c / 64, 0x80 + c % 64]
    else if c < 0x10000 then [0xE0 + c / 4096, 0x80 + c / 64 % 64, 0x80 + c % 64]
    else [0xF0 + c / 262144, 0x80 + c / 4096 % 64, 0x80 + c / 64 % 64, 0x80 + c % 64]
  }

  ghost predicate AllScalars(cs: seq<nat>) {
    forall c | c in cs :: IsScalar(c)
  }

  function EncodeAll(cs: seq<nat>): Bytes
    requires AllScalars(cs)
  {
    if cs == [] then []
    else
      assert cs[0] in cs && forall c | c in cs[1..] :: c in cs;
      EncodeScalar(cs[0]) + EncodeAll(cs[1..])
  }

  lemma {:induction false} DivMod(q: nat, r: nat, k: nat)
    requires r < k && (k == 64 || k == 4096 || k == 262144)
    ensures (q * k + r) / k == q && (q * k + r) % k == r
  {
    if k == 64 {
      assert (q * 64 + r) / 64 == q;
    } else if k == 4096 {
      assert (q * 4096 + r) / 4096 == q;
    } else {
      assert (q * 262144 + r) / 262144 == q;
    }
  }

  lemma {:induction false} EncodedIsChar(c: nat)
    requires IsScalar(c)
    ensures LeadLength(EncodeScalar(c)[0]) == |EncodeScalar(c)| && StartsWithChar(EncodeScalar(c), |EncodeScalar(c)|)
  {
  }

  lemma {:induction false} CharOfTwo(a: nat, b: nat) returns (c: nat)
    requires 2 <= a < 32 && b < 64
    ensures IsScalar(c) && EncodeScalar(c) == [0xC0 + a, 0x80 + b]
  {
    c := a * 64 + b;
    DivMod(a, b, 64);
  }

  lemma {:induction false} CharOfThree(a: nat, b: nat, d: nat) returns (c: nat)
    requires a < 16 && b < 64 && d < 64 && (a == 0 ==> b >= 32) && (a == 13 ==> b < 32)
    ensures IsScalar(c) && EncodeScalar(c) == [0xE0 + a, 0x80 + b, 0x80 + d]
  {
    c := (a * 64 + b) * 64 + d;
    DivMod(a * 64 + b, d, 64);
    DivMod(a, b, 64);
    assert c == a * 4096 + (b * 64 + d);
    DivMod(a, b * 64 + d, 4096);
  }

  lemma {:induction false} CharOfFour(a: nat, b: nat, d: nat, e: nat) returns (c: nat)
    requires a < 5 && b < 64 && d < 64 && e < 64 && (a == 0 ==> b >= 16) && (a == 4 ==> b < 16)
    ensures IsScalar(c) && EncodeScalar(c) == [0xF0 + a, 0x80 + b, 0x80 + d, 0x80 + e]
  {
    c := ((a * 64 + b) * 64 + d) * 64 + e;
    DivMod((a * 64 + b) * 64 + d, e, 64);
    DivMod(a * 64 + b, d, 64);
    DivMod(a, b, 64);
    assert c == (a * 64 + b) * 4096 + (d * 64 + e);
    DivMod(a * 64 + b, d * 64 + e, 4096);
    assert c == a * 262144 + (b * 4096 + d * 64 + e);
    DivMod(a, b * 4096 + d * 64 + e, 262144);
  }

  lemma {:induction false} CharIsEncoded(s: Bytes) returns (c: nat)
    requires s != [] && StartsWithChar(s, LeadLength(s[0]))
    ensures IsScalar(c) && EncodeScalar(c) == s[..LeadLength(s[0])]
  {
    var n := LeadLength(s[0]);
    if n == 1 {
      c := s[0];
    } else if n == 2 {
      c := CharOfTwo(s[0] - 0xC0, s[1] - 0x80);
    } else if n == 3 {
      c := CharOfThree(s[0] - 0xE0, s[1] - 0x80, s[2] - 0x80);
    } else {
      c := CharOfFour(s[0] - 0xF0, s[1] - 0x80, s[2] - 0x80, s[3] - 0x80);
    }
  }

  lemma {:induction false} EncodedIsText(cs: seq<nat>)
    requires AllScalars(cs)
    ensures IsText(EncodeAll(cs))
  {
    if cs != [] {
      var head, rest := EncodeScalar(cs[0]), EncodeAll(cs[1..]);
      assert cs[0] in cs && forall c | c in cs[1..] :: c in cs;
      EncodedIsText(cs[1..]);
      EncodedIsChar(cs[0]);
      assert (head + rest)[..|head|] == head[..|head|] && (head + rest)[|head|..] == rest;
      CharSurvives(head, head + rest, |head|);
    }
  }

  lemma {:induction false} TextIsEncoded(s: Bytes) returns (cs: seq<nat>)
    requires IsText(s)
    ensures AllScalars(cs) && EncodeAll(cs) == s
  {
    if s == [] {
      cs := [];
    } else {
      var n := LeadLength(s[0]);
      var c := CharIsEncoded(s);
      var rest := TextIsEncoded(s[n..]);
      cs := [c] + rest;
      assert cs[1..] == rest && s == s[..n] + s[n..];
    }
  }

  /** The texts are exactly the byte strings that encode characters one after another. */
  lemma {:induction false} TextIff(s: Bytes)
    ensures IsText(s) <==> exists cs :: AllScalars(cs) && EncodeAll(cs) == s
  {
    if IsText(s) {
      var cs := TextIsEncoded(s);
    }
    if cs :| AllScalars(cs) && EncodeAll(cs) == s {
      EncodedIsText(cs);
    }
  }
}
