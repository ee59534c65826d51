/**
 Templates: task texts and values written as plain stretches and placeholders. What they refer to, what rendering makes
 of them, and when the order in which values are put in does not matter.
 */
module Templates {
  import opened Prelude
  import opened Texts
  import opened TaskSpecs

  datatype Piece = Lit(text: string) | Hole(body: string)

  function PieceText(p: Piece): string {
    match p
    case Lit(text) => text
    case Hole(body) => Placeholder(body)
  }

  function Flatten(pieces: seq<Piece>): string {
    if pieces == [] then "" else PieceText(pieces[0]) + Flatten(pieces[1..])
  }

  /** A name or placeholder body that neither starts a placeholder nor ends one early. */
  predicate PlainName(name: string) {
    '$' !in name && Split(name, CLOSE).None?
  }

  /** The end of `a` and the first character of `b` could be part of one opening mark. */
  ghost predicate Seam(a: string, b: string) {
    exists k | 0 < k < |OPEN| && k <= |a| && b != "" :: a[|a| - k..] == OPEN[..k] && b[0] == OPEN[k]
  }

  /**
   Texts that hold no opening mark, not even across two of them. They may hold `$`: in prices, in `${HOME}`, and right in
   front of a placeholder.
   */
  ghost predicate Sealed(texts: set<string>) {
    && (forall a | a in texts :: Split(a, OPEN).None?)
    && (forall a, b | a in texts && b in texts :: !Seam(a, b))
  }

  /** Stretches from sealed texts, and placeholders with plain names. */
  predicate Plain(pieces: seq<Piece>, texts: set<string>) {
    pieces == [] ||
    ((match pieces[0] case Lit(text) => text in texts case Hole(body) => PlainName(body)) && Plain(pieces[1..], texts))
  }

  lemma {:induction false} FlattenJoin(a: seq<Piece>, b: seq<Piece>)
    ensures Flatten(a + b) == Flatten(a) + Flatten(b)
  {
    if a == [] {
      assert a + b == b;
    } else {
      assert (a + b)[1..] == a[1..] + b;
      FlattenJoin(a[1..], b);
      Assoc(PieceText(a[0]), Flatten(a[1..]), Flatten(b));
    }
  }

  lemma {:induction false} PlainJoin(a: seq<Piece>, b: seq<Piece>, texts: set<string>)
    ensures Plain(a + b, texts) <==> Plain(a, texts) && Plain(b, texts)
  {
    if a == [] {
      assert a + b == b;
    } else {
      assert (a + b)[1..] == a[1..] + b;
      PlainJoin(a[1..], b, texts);
    }
  }

  // ----- Opening marks are only at placeholders -----

  /** What a text in pieces starts with: nothing, a placeholder's `$`, or the first character of one of its stretches. */
  lemma {:induction false} FlattenHead(pieces: seq<Piece>, texts: set<string>)
    requires Plain(pieces, texts) && Flatten(pieces) != ""
    ensures Flatten(pieces)[0] == '$' || exists b | b in texts && b != "" :: b[0] == Flatten(pieces)[0]
  {
    match pieces[0]
    case Lit(text) =>
      if text == "" {
        assert "" + Flatten(pieces[1..]) == Flatten(pieces[1..]);
        FlattenHead(pieces[1..], texts);
      }
    case Hole(body) =>
      assert Placeholder(body)[0] == '$';
  }

  lemma {:induction false} OpenTail(k: nat)
    requires 0 < k < |OPEN|
    ensures OPEN[k] != '$'
  {
  }

  /** An opening mark that starts inside a stretch and runs over its end makes a seam. */
  lemma {:induction false} OpenRunsOver(a: string, s: string)
    requires OPEN <= a + s && a != "" && |a| < |OPEN|
    ensures s != "" && a == OPEN[..|a|] && s[0] == OPEN[|a|]
  {
    assert a == (a + s)[..|a|] == OPEN[..|a|];
    assert (a + s)[|a|] == OPEN[|a|];
  }

  lemma {:induction false} OpenInside(a: string, s: string)
    requires OPEN <= a + s && |a| >= |OPEN|
    ensures OPEN <= a
  {
    assert (a + s)[..|OPEN|] == a[..|OPEN|];
  }

  lemma {:induction false} NoSeam(whole: string, done: nat, s: string, texts: set<string>)
    requires Sealed(texts) && whole in texts && done < |whole| && |whole[done..]| < |OPEN| && s != ""
    requires s[0] == '$' || exists b | b in texts && b != "" :: b[0] == s[0]
    ensures !(OPEN <= whole[done..] + s)
  {
    var a := whole[done..];
    if OPEN <= a + s {
      OpenRunsOver(a, s);
      OpenTail(|a|);
      var b :| b in texts && b != "" && b[0] == s[0];
      assert whole[|whole| - |a|..] == OPEN[..|a|];
      assert Seam(whole, b);
    }
  }

  /** Sealed texts stay without opening marks whatever pieces follow. */
  lemma {:induction false} StretchIsQuiet(whole: string, done: nat, rest: seq<Piece>, texts: set<string>)
    requires Sealed(texts) && whole in texts && done <= |whole| && Split(whole[done..], OPEN).None? && Plain(rest, texts)
    ensures Quiet(whole[done..], Flatten(rest), OPEN)
    decreases |whole| - done
  {
    if done < |whole| {
      var a, s := whole[done..], Flatten(rest);
      assert a[1..] == whole[done + 1..];
      StretchIsQuiet(whole, done + 1, rest, texts);
      if |a| >= |OPEN| {
        if OPEN <= a + s {
          OpenInside(a, s);
        }
      } else if s != "" {
        FlattenHead(rest, texts);
        NoSeam(whole, done, s, texts);
      }
    }
  }

  lemma {:induction false} LitIsQuiet(text: string, rest: seq<Piece>, texts: set<string>)
    requires Sealed(texts) && text in texts && Plain(rest, texts)
    ensures Quiet(text, Flatten(rest), OPEN)
  {
    assert text[0..] == text;
    StretchIsQuiet(text, 0, rest, texts);
  }

  lemma {:induction false} ReplaceStep(s: string, pat: string, value: string)
    requires pat != "" && s != "" && !(pat <= s)
    ensures Replace(s, pat, value) == s[..1] + Replace(s[1..], pat, value)
  {
  }

  lemma {:induction false} ReplaceSkips(a: string, s: string, pat: string, value: string)
    requires pat != "" && Quiet(a, s, pat)
    ensures Replace(a + s, pat, value) == a + Replace(s, pat, value)
    decreases |a|
  {
    if a == "" {
      NothingBefore(s);
      NothingBefore(Replace(s, pat, value));
    } else {
      HeadOfJoin(a, s);
      ReplaceStep(a + s, pat, value);
      ReplaceSkips(a[1..], s, pat, value);
      HeadOfJoin(a, Replace(s, pat, value));
    }
  }

  lemma {:induction false} LongerStarts(s: string, tail: string)
    ensures OPEN + tail <= s ==> OPEN <= s
  {
    if OPEN + tail <= s {
      assert OPEN == (OPEN + tail)[..|OPEN|] == s[..|OPEN|];
    }
  }

  lemma {:induction false} QuietForLonger(a: string, s: string, tail: string)
    requires Quiet(a, s, OPEN)
    ensures Quiet(a, s, OPEN + tail)
  {
    if a != "" {
      LongerStarts(a + s, tail);
      QuietForLonger(a[1..], s, tail);
    }
  }

  // ----- Placeholders -----

  lemma {:induction false} CloseInside(name: string, k: nat, rest: string)
    requires k + 3 <= |name| && CLOSE <= (name + rest)[k..]
    ensures Split(name, CLOSE).Some?
  {
    assert name[k..k + 3] == (name + rest)[k..][..3];
    assert name == name[..k] + CLOSE + name[k + 3..];
    var ignored := SplitFinds(name[..k], CLOSE, name[k + 3..]);
  }

  /** The placeholder end cannot start inside a plain name, not even across its last characters. */
  lemma {:induction false} NoEarlyClose(name: string, k: nat, rest: string)
    requires Split(name, CLOSE).None? && k < |name|
    ensures !(CLOSE <= (name + CLOSE + rest)[k..])
  {
    var s := name + CLOSE + rest;
    assert s == name + (CLOSE + rest);
    if k + 3 <= |name| {
      if CLOSE <= s[k..] {
        CloseInside(name, k, CLOSE + rest);
      }
    } else {
      assert s[k..][|name| - k] == ' ';
    }
  }

  lemma {:induction false} Aligned(a: string, b: string, s: string, t: string)
    requires a + s <= b + t && |a| <= |b|
    ensures a <= b && s <= (b + t)[|a|..]
  {
    assert a == (a + s)[..|a|] == (b + t)[..|a|] == b[..|a|];
    assert s == (a + s)[|a|..];
  }

  /** Where the shorter of two different bodies ends, the placeholder end would have to start inside the longer one. */
  lemma {:induction false} EarlyClose(a: string, b: string, rest: string)
    requires a + CLOSE <= b + CLOSE + rest && a != b
    ensures |a| != |b|
    ensures |a| < |b| ==> CLOSE <= (b + CLOSE + rest)[|a|..]
    ensures |b| < |a| ==> CLOSE <= (a + CLOSE + "")[|b|..]
  {
    var s, t := a + CLOSE, b + CLOSE + rest;
    assert t == b + (CLOSE + rest);
    if |a| <= |b| {
      Aligned(a, b, CLOSE, CLOSE + rest);
    } else {
      assert a + CLOSE + "" == s;
      assert s[|b|..][..3] == s[|b|..|b| + 3] == t[|b|..|b| + 3] == CLOSE;
    }
  }

  /** Different plain names give placeholders neither of which starts with the other, whatever follows. */
  lemma {:induction false} BodiesDiffer(a: string, b: string, rest: string)
    requires PlainName(a) && PlainName(b) && a != b
    ensures !(a + CLOSE <= b + CLOSE + rest)
  {
    if |a| < |b| {
      NoEarlyClose(b, |a|, rest);
    }
    if |b| < |a| {
      NoEarlyClose(a, |b|, "");
    }
    if a + CLOSE <= b + CLOSE + rest {
      EarlyClose(a, b, rest);
    }
  }

  lemma {:induction false} StripOpen(a: string, b: string)
    ensures OPEN + a <= OPEN + b <==> a <= b
  {
    assert (OPEN + a)[|OPEN|..] == a && (OPEN + b)[|OPEN|..] == b;
    if OPEN + a <= OPEN + b {
      Aligned(OPEN, OPEN, a, b);
    }
  }

  lemma {:induction false} PlaceholdersDiffer(a: string, b: string, rest: string)
    requires PlainName(a) && PlainName(b) && a != b
    ensures !(Placeholder(a) <= Placeholder(b) + rest)
  {
    BodiesDiffer(a, b, rest);
    assert Placeholder(a) == OPEN + (a + CLOSE);
    assert Placeholder(b) + rest == OPEN + (b + CLOSE + rest);
    StripOpen(a + CLOSE, b + CLOSE + rest);
  }

  /** The placeholder text past its `$`. */
  function AfterDollar(body: string): string {
    "{{ inputs." + body + CLOSE
  }

  lemma {:induction false} PlaceholderParts(body: string)
    requires '$' !in body
    ensures Placeholder(body) == "$" + AfterDollar(body) && '$' !in AfterDollar(body)
  {
  }

  lemma {:induction false} HoleHead(body: string, rest: string)
    requires '$' !in body
    ensures (Placeholder(body) + rest)[..1] == "$" && (Placeholder(body) + rest)[1..] == AfterDollar(body) + rest
    ensures "$" + (AfterDollar(body) + rest) == Placeholder(body) + rest
  {
    PlaceholderParts(body);
  }

  lemma {:induction false} ReplaceOther(body: string, rest: string, name: string, value: string)
    requires PlainName(body) && PlainName(name) && body != name
    ensures Replace(Placeholder(body) + rest, Placeholder(name), value) == Placeholder(body) + Replace(rest, Placeholder(name), value)
  {
    PlaceholdersDiffer(name, body, rest);
    ReplaceStep(Placeholder(body) + rest, Placeholder(name), value);
    HoleHead(body, rest);
    PlaceholderParts(body);
    PlaceholderParts(name);
    QuietWithoutFirst(AfterDollar(body), rest, Placeholder(name));
    ReplaceSkips(AfterDollar(body), rest, Placeholder(name), value);
    HoleHead(body, Replace(rest, Placeholder(name), value));
  }

  lemma {:induction false} ReplaceAtHole(body: string, rest: string, name: string, value: string)
    requires PlainName(body) && PlainName(name)
    ensures Replace(Placeholder(body) + rest, Placeholder(name), value)
            == (if body == name then value else Placeholder(body)) + Replace(rest, Placeholder(name), value)
  {
    if body == name {
      assert (Placeholder(name) + rest)[|Placeholder(name)|..] == rest;
    } else {
      ReplaceOther(body, rest, name, value);
    }
  }

  // ----- Filling one name -----

  /** The pieces with every placeholder of `name` replaced by `value`. */
  function Fill(pieces: seq<Piece>, name: string, value: seq<Piece>): seq<Piece> {
    if pieces == [] then []
    else (if pieces[0] == Hole(name) then value else [pieces[0]]) + Fill(pieces[1..], name, value)
  }

  /** The text with `x` for every placeholder of `name`. */
  function Spliced(pieces: seq<Piece>, name: string, x: string): string {
    if pieces == [] then ""
    else (if pieces[0] == Hole(name) then x else PieceText(pieces[0])) + Spliced(pieces[1..], name, x)
  }

  lemma {:induction false} FillIsSpliced(pieces: seq<Piece>, name: string, value: seq<Piece>)
    ensures Flatten(Fill(pieces, name, value)) == Spliced(pieces, name, Flatten(value))
  {
    if pieces != [] {
      FillIsSpliced(pieces[1..], name, value);
      var first := if pieces[0] == Hole(name) then value else [pieces[0]];
      FlattenJoin(first, Fill(pieces[1..], name, value));
      FlattenOne(pieces[0]);
    }
  }

  lemma {:induction false} FlattenOne(p: Piece)
    ensures Flatten([p]) == PieceText(p)
  {
    assert Flatten([p]) == PieceText(p) + Flatten([p][1..]);
    assert PieceText(p) + "" == PieceText(p);
  }

  lemma {:induction false} FlattenIsSpliced(pieces: seq<Piece>, name: string)
    ensures Flatten(pieces) == Spliced(pieces, name, Placeholder(name))
  {
    if pieces != [] {
      FlattenIsSpliced(pieces[1..], name);
    }
  }

  lemma {:induction false} FillIsPlain(pieces: seq<Piece>, name: string, value: seq<Piece>, texts: set<string>)
    requires Plain(pieces, texts) && Plain(value, texts)
    ensures Plain(Fill(pieces, name, value), texts)
  {
    if pieces != [] {
      FillIsPlain(pieces[1..], name, value, texts);
      PlainJoin(if pieces[0] == Hole(name) then value else [pieces[0]], Fill(pieces[1..], name, value), texts);
    }
  }

  lemma {:induction false} ReplaceIsSpliced(pieces: seq<Piece>, name: string, value: string, texts: set<string>)
    requires Sealed(texts) && Plain(pieces, texts) && PlainName(name)
    ensures Replace(Flatten(pieces), Placeholder(name), value) == Spliced(pieces, name, value)
  {
    if pieces != [] {
      var rest := pieces[1..];
      ReplaceIsSpliced(rest, name, value, texts);
      match pieces[0]
      case Lit(text) =>
        LitIsQuiet(text, rest, texts);
        QuietForLonger(text, Flatten(rest), name + CLOSE);
        assert OPEN + (name + CLOSE) == Placeholder(name);
        ReplaceSkips(text, Flatten(rest), Placeholder(name), value);
      case Hole(body) =>
        ReplaceAtHole(body, Flatten(rest), name, value);
    }
  }

  /** Replacing one name in a template's text fills exactly its placeholders. */
  lemma {:induction false} ReplaceFills(pieces: seq<Piece>, name: string, value: seq<Piece>, texts: set<string>)
    requires Sealed(texts) && Plain(pieces, texts) && PlainName(name)
    ensures Replace(Flatten(pieces), Placeholder(name), Flatten(value)) == Flatten(Fill(pieces, name, value))
  {
    ReplaceIsSpliced(pieces, name, Flatten(value), texts);
    FillIsSpliced(pieces, name, value);
  }

  // ----- Filling every name -----

  /** The values of names, in pieces. */
  type PieceValues = map<string, seq<Piece>>

  function TextsOf(vals: PieceValues): Values {
    map name | name in vals :: Flatten(vals[name])
  }

  ghost predicate PlainValues(vals: PieceValues, texts: set<string>) {
    forall name | name in vals :: PlainName(name) && Plain(vals[name], texts)
  }

  /** All these names filled at once; what a value holds is not filled. */
  function Subst(pieces: seq<Piece>, names: set<string>, vals: PieceValues): seq<Piece>
    requires names <= vals.Keys
  {
    if pieces == [] then []
    else SubstPiece(pieces[0], names, vals) + Subst(pieces[1..], names, vals)
  }

  function SubstPiece(p: Piece, names: set<string>, vals: PieceValues): seq<Piece>
    requires names <= vals.Keys
  {
    if p.Hole? && p.body in names then vals[p.body] else [p]
  }

  /** One name filled after another. */
  function FillAll(pieces: seq<Piece>, order: seq<string>, vals: PieceValues): seq<Piece>
    requires forall name | name in order :: name in vals
  {
    if order == [] then pieces
    else
      var n := |order| - 1;
      Fill(FillAll(pieces, order[..n], vals), order[n], vals[order[n]])
  }

  lemma {:induction false} FillAllIsPlain(pieces: seq<Piece>, order: seq<string>, vals: PieceValues, texts: set<string>)
    requires Plain(pieces, texts) && PlainValues(vals, texts) && forall name | name in order :: name in vals
    ensures Plain(FillAll(pieces, order, vals), texts)
  {
    if order != [] {
      var n := |order| - 1;
      FillAllIsPlain(pieces, order[..n], vals, texts);
      FillIsPlain(FillAll(pieces, order[..n], vals), order[n], vals[order[n]], texts);
    }
  }

  /** Rendering a template's text one name after another fills its pieces one name after another. */
  lemma {:induction false} RenderingFills(pieces: seq<Piece>, order: seq<string>, vals: PieceValues, texts: set<string>)
    requires Sealed(texts) && Plain(pieces, texts) && PlainValues(vals, texts) && forall name | name in order :: name in vals
    ensures ReplaceAll(Flatten(pieces), order, TextsOf(vals)) == Flatten(FillAll(pieces, order, vals))
  {
    if order != [] {
      var n := |order| - 1;
      RenderingFills(pieces, order[..n], vals, texts);
      FillAllIsPlain(pieces, order[..n], vals, texts);
      ReplaceFills(FillAll(pieces, order[..n], vals), order[n], vals[order[n]], texts);
    }
  }

  lemma {:induction false} FillJoin(a: seq<Piece>, b: seq<Piece>, name: string, value: seq<Piece>)
    ensures Fill(a + b, name, value) == Fill(a, name, value) + Fill(b, name, value)
  {
    if a == [] {
      assert a + b == b;
    } else {
      assert (a + b)[1..] == a[1..] + b;
      FillJoin(a[1..], b, name, value);
      Assoc(if a[0] == Hole(name) then value else [a[0]], Fill(a[1..], name, value), Fill(b, name, value));
    }
  }

  lemma {:induction false} FillOne(p: Piece, name: string, value: seq<Piece>)
    ensures Fill([p], name, value) == if p == Hole(name) then value else [p]
  {
    assert Fill([p], name, value) == (if p == Hole(name) then value else [p]) + Fill([p][1..], name, value);
    assert Fill([p][1..], name, value) == [];
    assert value + [] == value;
  }

  lemma {:induction false} FillNothing(pieces: seq<Piece>, name: string, value: seq<Piece>)
    requires Hole(name) !in pieces
    ensures Fill(pieces, name, value) == pieces
  {
    if pieces != [] {
      assert pieces[0] in pieces;
      FillNothing(pieces[1..], name, value);
      assert [pieces[0]] + pieces[1..] == pieces;
    }
  }

  // ----- When the order does not matter -----

  /** No value that is used holds the placeholder of another name, unless that name's value is the placeholder itself. */
  ghost predicate Calm(pieces: seq<Piece>, vals: PieceValues) {
    forall a, b | a in vals && b in vals && a != b && Hole(a) in pieces && Hole(b) in vals[a] :: Flatten(vals[b]) == Placeholder(b)
  }

  lemma {:induction false} FillIsIdle(pieces: seq<Piece>, name: string, value: seq<Piece>)
    requires Hole(name) in pieces ==> Flatten(value) == Placeholder(name)
    ensures Flatten(Fill(pieces, name, value)) == Flatten(pieces)
  {
    if Hole(name) in pieces {
      FillIsSpliced(pieces, name, value);
      FlattenIsSpliced(pieces, name);
    } else {
      FillNothing(pieces, name, value);
    }
  }

  /** With calm values, filling one more name fills its placeholders in the template and changes no value's text. */
  lemma {:induction false} OneMoreName(pieces: seq<Piece>, names: set<string>, name: string, vals: PieceValues)
    requires names <= vals.Keys && name in vals && name !in names && Calm(pieces, vals)
    ensures Flatten(Fill(Subst(pieces, names, vals), name, vals[name])) == Flatten(Subst(pieces, names + {name}, vals))
  {
    if pieces != [] {
      var p, rest := pieces[0], pieces[1..];
      assert p in pieces && forall q | q in rest :: q in pieces;
      OneMoreName(rest, names, name, vals);
      FillJoin(SubstPiece(p, names, vals), Subst(rest, names, vals), name, vals[name]);
      FlattenJoin(Fill(SubstPiece(p, names, vals), name, vals[name]), Fill(Subst(rest, names, vals), name, vals[name]));
      FlattenJoin(SubstPiece(p, names + {name}, vals), Subst(rest, names + {name}, vals));
      if p.Hole? && p.body in names {
        FillIsIdle(vals[p.body], name, vals[name]);
      } else {
        FillOne(p, name, vals[name]);
      }
    }
  }

  function Set(order: seq<string>): set<string> {
    set name | name in order
  }

  lemma {:induction false} SubstNothing(pieces: seq<Piece>, vals: PieceValues)
    ensures Subst(pieces, {}, vals) == pieces
  {
    if pieces != [] {
      SubstNothing(pieces[1..], vals);
      assert [pieces[0]] + pieces[1..] == pieces;
    }
  }

  lemma {:induction false} CalmFills(pieces: seq<Piece>, order: seq<string>, vals: PieceValues, texts: set<string>)
    requires Sealed(texts) && Plain(pieces, texts) && PlainValues(vals, texts) && Calm(pieces, vals)
    requires forall name | name in order :: name in vals
    requires forall i, j | 0 <= i < j < |order| :: order[i] != order[j]
    ensures ReplaceAll(Flatten(pieces), order, TextsOf(vals)) == Flatten(Subst(pieces, Set(order), vals))
  {
    if order == [] {
      assert Set(order) == {};
      SubstNothing(pieces, vals);
    } else {
      var n := |order| - 1;
      assert order == order[..n] + [order[n]] && Set(order) == Set(order[..n]) + {order[n]};
      CalmFills(pieces, order[..n], vals, texts);
      SubstIsPlain(pieces, Set(order[..n]), vals, texts);
      ReplaceFills(Subst(pieces, Set(order[..n]), vals), order[n], vals[order[n]], texts);
      OneMoreName(pieces, Set(order[..n]), order[n], vals);
    }
  }

  lemma {:induction false} SubstIsPlain(pieces: seq<Piece>, names: set<string>, vals: PieceValues, texts: set<string>)
    requires names <= vals.Keys && Plain(pieces, texts) && PlainValues(vals, texts)
    ensures Plain(Subst(pieces, names, vals), texts)
  {
    if pieces != [] {
      SubstIsPlain(pieces[1..], names, vals, texts);
      PlainJoin(SubstPiece(pieces[0], names, vals), Subst(pieces[1..], names, vals), texts);
    }
  }

  /**
   With calm values, rendering in any order is one simultaneous substitution: each placeholder of a declared name is
   replaced by its value, once, and nothing else changes.
   */
  lemma {:induction false} OrderDoesNotMatter(pieces: seq<Piece>, order: seq<string>, vals: PieceValues, texts: set<string>)
    requires Sealed(texts) && Plain(pieces, texts) && PlainValues(vals, texts) && Calm(pieces, vals)
    requires IsOrderOf(order, vals.Keys)
    ensures ReplaceAll(Flatten(pieces), order, TextsOf(vals)) == Flatten(Subst(pieces, vals.Keys, vals))
  {
    CalmFills(pieces, order, vals, texts);
    assert Set(order) == vals.Keys;
  }

  // ----- When it does -----

  lemma {:induction false} SplicedGrows(pieces: seq<Piece>, name: string, x: string, y: string)
    requires |x| <= |y|
    ensures |Spliced(pieces, name, x)| <= |Spliced(pieces, name, y)|
    ensures |x| < |y| && Hole(name) in pieces ==> |Spliced(pieces, name, x)| < |Spliced(pieces, name, y)|
  {
    if pieces != [] {
      SplicedGrows(pieces[1..], name, x, y);
    }
  }

  /** Different texts for the same placeholders give different texts. */
  lemma {:induction false} SplicedDiffers(pieces: seq<Piece>, name: string, x: string, y: string)
    requires Hole(name) in pieces && x != y
    ensures Spliced(pieces, name, x) != Spliced(pieces, name, y)
  {
    if |x| < |y| {
      SplicedGrows(pieces, name, x, y);
    } else if |y| < |x| {
      SplicedGrows(pieces, name, y, x);
    } else {
      var restX, restY := Spliced(pieces[1..], name, x), Spliced(pieces[1..], name, y);
      if pieces[0] == Hole(name) {
        SameLengthFront(x, restX, y, restY);
      } else {
        SplicedDiffers(pieces[1..], name, x, y);
        SameLengthFront(PieceText(pieces[0]), restX, PieceText(pieces[0]), restY);
      }
    }
  }

  lemma {:induction false} SameLengthFront(a: string, s: string, b: string, t: string)
    requires |a| == |b|
    ensures a + s == b + t ==> a == b && s == t
  {
    assert (a + s)[..|a|] == a && (b + t)[..|b|] == b;
    assert (a + s)[|a|..] == s && (b + t)[|b|..] == t;
  }

  /** Filling `a` and then `b` is filling `b`, and `a` with its value in which `b` is filled. */
  lemma {:induction false} FillTwice(pieces: seq<Piece>, a: string, va: seq<Piece>, b: string, vb: seq<Piece>)
    requires a != b && Hole(a) !in vb
    ensures Fill(Fill(pieces, a, va), b, vb) == Fill(Fill(pieces, b, vb), a, Fill(va, b, vb))
  {
    if pieces != [] {
      var p, rest := pieces[0], pieces[1..];
      FillTwice(rest, a, va, b, vb);
      var pa := if p == Hole(a) then va else [p];
      var pb := if p == Hole(b) then vb else [p];
      FillJoin(pa, Fill(rest, a, va), b, vb);
      FillJoin(pb, Fill(rest, b, vb), a, Fill(va, b, vb));
      FillOne(p, b, vb);
      FillOne(p, a, Fill(va, b, vb));
      FillNothing(vb, a, Fill(va, b, vb));
    }
  }

  lemma {:induction false} HoleStays(pieces: seq<Piece>, a: string, b: string, vb: seq<Piece>)
    requires a != b && Hole(a) in pieces
    ensures Hole(a) in Fill(pieces, b, vb)
  {
    if pieces[0] != Hole(a) {
      HoleStays(pieces[1..], a, b, vb);
    }
  }

  lemma {:induction false} HoleStaysAll(pieces: seq<Piece>, a: string, order: seq<string>, vals: PieceValues)
    requires Hole(a) in pieces && a !in order && forall name | name in order :: name in vals
    ensures Hole(a) in FillAll(pieces, order, vals)
  {
    if order != [] {
      var n := |order| - 1;
      HoleStaysAll(pieces, a, order[..n], vals);
      HoleStays(FillAll(pieces, order[..n], vals), a, order[n], vals[order[n]]);
    }
  }

  lemma {:induction false} LastTwo(pieces: seq<Piece>, order: seq<string>, x: string, y: string, vals: PieceValues)
    requires x in vals && y in vals && forall name | name in order :: name in vals
    ensures forall name | name in order + [x, y] :: name in vals
    ensures FillAll(pieces, order + [x, y], vals) == Fill(Fill(FillAll(pieces, order, vals), x, vals[x]), y, vals[y])
  {
    var all := order + [x, y];
    assert all[..|order| + 1] == order + [x] && (order + [x])[..|order|] == order;
  }

  /**
   If the template uses `a`, the value of `a` holds the placeholder of `b`, and the value of `b` is another text that does
   not hold the placeholder of `a`, then putting `b` in before `a` and `a` before `b` gives different texts.
   */
  lemma {:induction false} OrderMatters(pieces: seq<Piece>, order: seq<string>, a: string, b: string, vals: PieceValues, texts: set<string>)
    requires Sealed(texts) && Plain(pieces, texts) && PlainValues(vals, texts)
    requires a in vals && b in vals && a != b && a !in order && forall name | name in order :: name in vals
    requires Hole(a) in pieces && Hole(b) in vals[a] && Hole(a) !in vals[b] && Flatten(vals[b]) != Placeholder(b)
    ensures forall name | name in order + [b, a] || name in order + [a, b] :: name in vals
    ensures ReplaceAll(Flatten(pieces), order + [b, a], TextsOf(vals)) != ReplaceAll(Flatten(pieces), order + [a, b], TextsOf(vals))
  {
    LastTwo(pieces, order, b, a, vals);
    LastTwo(pieces, order, a, b, vals);
    RenderingFills(pieces, order + [b, a], vals, texts);
    RenderingFills(pieces, order + [a, b], vals, texts);
    HoleStaysAll(pieces, a, order, vals);
    SwapDiffers(FillAll(pieces, order, vals), a, vals[a], b, vals[b]);
  }

  lemma {:induction false} SwapDiffers(pieces: seq<Piece>, a: string, va: seq<Piece>, b: string, vb: seq<Piece>)
    requires a != b && Hole(a) in pieces && Hole(b) in va && Hole(a) !in vb && Flatten(vb) != Placeholder(b)
    ensures Flatten(Fill(Fill(pieces, b, vb), a, va)) != Flatten(Fill(Fill(pieces, a, va), b, vb))
  {
    var first := Fill(pieces, b, vb);
    FillTwice(pieces, a, va, b, vb);
    HoleStays(pieces, a, b, vb);
    FillIsSpliced(first, a, va);
    FillIsSpliced(first, a, Fill(va, b, vb));
    FlattenIsSpliced(va, b);
    FillIsSpliced(va, b, vb);
    SplicedDiffers(va, b, Placeholder(b), Flatten(vb));
    SplicedDiffers(first, a, Flatten(va), Flatten(Fill(va, b, vb)));
  }

  // ----- Exactly when -----

  ghost predicate OrderFree(text: string, values: Values) {
    forall one, other | IsOrderOf(one, values.Keys) && IsOrderOf(other, values.Keys) ::
      ReplaceAll(text, one, values) == ReplaceAll(text, other, values)
  }

  /** No two values hold each other's placeholders. */
  ghost predicate OneWay(vals: PieceValues) {
    forall a, b | a in vals && b in vals && a != b && Hole(b) in vals[a] :: Hole(a) !in vals[b]
  }

  lemma {:induction false} SomeOrder(keys: set<string>) returns (order: seq<string>)
    ensures IsOrderOf(order, keys)
    decreases |keys|
  {
    order := [];
    if keys != {} {
      var name :| name in keys;
      var rest := SomeOrder(keys - {name});
      OrderSnoc(rest, keys - {name}, name);
      order := rest + [name];
      assert keys - {name} + {name} == keys;
    }
  }

  lemma {:induction false} OrderOfAll(order: seq<string>, keys: set<string>, x: string, y: string)
    requires IsOrderOf(order, keys) && x !in keys && y !in keys && x != y
    ensures IsOrderOf(order + [x, y], keys + {x, y})
  {
    OrderSnoc(order, keys, x);
    OrderSnoc(order + [x], keys + {x}, y);
    assert order + [x] + [y] == order + [x, y] && keys + {x} + {y} == keys + {x, y};
  }

  lemma {:induction false} CalmIsFree(pieces: seq<Piece>, vals: PieceValues, texts: set<string>)
    requires Sealed(texts) && Plain(pieces, texts) && PlainValues(vals, texts) && Calm(pieces, vals)
    ensures OrderFree(Flatten(pieces), TextsOf(vals))
  {
    var values := TextsOf(vals);
    assert values.Keys == vals.Keys;
    forall one, other | IsOrderOf(one, values.Keys) && IsOrderOf(other, values.Keys)
      ensures ReplaceAll(Flatten(pieces), one, values) == ReplaceAll(Flatten(pieces), other, values)
    {
      OrderDoesNotMatter(pieces, one, vals, texts);
      OrderDoesNotMatter(pieces, other, vals, texts);
    }
  }

  lemma {:induction false} TwoOrders(keys: set<string>, a: string, b: string) returns (order: seq<string>)
    requires a in keys && b in keys && a != b
    ensures IsOrderOf(order + [a, b], keys) && IsOrderOf(order + [b, a], keys) && a !in order
  {
    order := SomeOrder(keys - {a, b});
    OrderOfAll(order, keys - {a, b}, a, b);
    OrderOfAll(order, keys - {a, b}, b, a);
    assert keys - {a, b} + {a, b} == keys && keys - {a, b} + {b, a} == keys;
  }

  lemma {:induction false} TwoResults(text: string, one: seq<string>, other: seq<string>, values: Values)
    requires IsOrderOf(one, values.Keys) && IsOrderOf(other, values.Keys)
    requires ReplaceAll(text, one, values) != ReplaceAll(text, other, values)
    ensures !OrderFree(text, values)
  {
  }

  lemma {:induction false} NotFree(pieces: seq<Piece>, a: string, b: string, vals: PieceValues, texts: set<string>)
    requires Sealed(texts) && Plain(pieces, texts) && PlainValues(vals, texts) && a in vals && b in vals && a != b
    requires Hole(a) in pieces && Hole(b) in vals[a] && Hole(a) !in vals[b] && Flatten(vals[b]) != Placeholder(b)
    ensures !OrderFree(Flatten(pieces), TextsOf(vals))
  {
    var order := TwoOrders(vals.Keys, a, b);
    OrderMatters(pieces, order, a, b, vals, texts);
    TwoResults(Flatten(pieces), order + [b, a], order + [a, b], TextsOf(vals));
  }

  /** When no two values hold each other's placeholders, the order does not matter if and only if the values are calm. */
  lemma {:induction false} OrderFreeIff(pieces: seq<Piece>, vals: PieceValues, texts: set<string>)
    requires Sealed(texts) && Plain(pieces, texts) && PlainValues(vals, texts) && OneWay(vals)
    ensures OrderFree(Flatten(pieces), TextsOf(vals)) <==> Calm(pieces, vals)
  {
    if Calm(pieces, vals) {
      CalmIsFree(pieces, vals, texts);
    } else {
      var a, b :| a in vals && b in vals && a != b && Hole(a) in pieces && Hole(b) in vals[a] && Flatten(vals[b]) != Placeholder(b);
      NotFree(pieces, a, b, vals, texts);
    }
  }

  /** Rendering has one result. */
  ghost predicate Determined(spec: TaskSpec, values: Values, isNumber: string -> bool) {
    forall one, other | Renders(spec, values, isNumber, one) && Renders(spec, values, isNumber, other) :: one == other
  }

  lemma {:induction false} FirstIsOne(names: seq<string>, declared: set<string>, one: string, other: string)
    requires FirstOutside(names, declared, one) && FirstOutside(names, declared, other)
    ensures one == other
  {
    var i :| 0 <= i < |names| && names[i] == one && one !in declared && forall j | 0 <= j < i :: names[j] in declared;
    var k :| 0 <= k < |names| && names[k] == other && other !in declared && forall j | 0 <= j < k :: names[j] in declared;
    assert i == k;
  }

  lemma {:induction false} ResultIn(spec: TaskSpec, values: Values, isNumber: string -> bool, order: seq<string>)
    requires AllDeclared(spec) && Resolve(spec.inputs, values, isNumber).Ok?
    requires IsOrderOf(order, Resolve(spec.inputs, values, isNumber).value.Keys)
    ensures var m := Resolve(spec.inputs, values, isNumber).value;
            Renders(spec, values, isNumber, Ok(RenderedTask(ReplaceAll(spec.task, order, m), RulesBlock(spec.rules))))
  {
  }

  lemma {:induction false} FreeIsDetermined(spec: TaskSpec, values: Values, isNumber: string -> bool)
    requires AllDeclared(spec) && Resolve(spec.inputs, values, isNumber).Ok?
    requires OrderFree(spec.task, Resolve(spec.inputs, values, isNumber).value)
    ensures Determined(spec, values, isNumber)
  {
  }

  lemma {:induction false} DeterminedIsFree(spec: TaskSpec, values: Values, isNumber: string -> bool)
    requires AllDeclared(spec) && Resolve(spec.inputs, values, isNumber).Ok? && Determined(spec, values, isNumber)
    ensures OrderFree(spec.task, Resolve(spec.inputs, values, isNumber).value)
  {
    var m := Resolve(spec.inputs, values, isNumber).value;
    forall one, other | IsOrderOf(one, m.Keys) && IsOrderOf(other, m.Keys)
      ensures ReplaceAll(spec.task, one, m) == ReplaceAll(spec.task, other, m)
    {
      ResultIn(spec, values, isNumber, one);
      ResultIn(spec, values, isNumber, other);
    }
  }

  /** Rendering has one result, errors included, exactly when the order of the values that it puts in does not matter. */
  lemma {:induction false} DeterminedIff(spec: TaskSpec, values: Values, isNumber: string -> bool)
    ensures var resolved := Resolve(spec.inputs, values, isNumber);
            Determined(spec, values, isNumber) <==> (AllDeclared(spec) && resolved.Ok? ==> OrderFree(spec.task, resolved.value))
  {
    var resolved := Resolve(spec.inputs, values, isNumber);
    if AllDeclared(spec) && resolved.Ok? {
      if Determined(spec, values, isNumber) {
        DeterminedIsFree(spec, values, isNumber);
      }
      if OrderFree(spec.task, resolved.value) {
        FreeIsDetermined(spec, values, isNumber);
      }
    } else if !AllDeclared(spec) {
      forall one, other | Renders(spec, values, isNumber, one) && Renders(spec, values, isNumber, other) ensures one == other {
        FirstIsOne(Referenced(spec.task, []), Declared(spec.inputs), one.error.name, other.error.name);
      }
    }
  }

  // ----- What is left -----

  /** A template's text holds an opening mark exactly when a placeholder is among its pieces. */
  lemma {:induction false} OpenIffHole(pieces: seq<Piece>, texts: set<string>)
    requires Sealed(texts) && Plain(pieces, texts)
    ensures Contains(Flatten(pieces), OPEN) <==> exists p | p in pieces :: p.Hole?
  {
    SplitIffHole(pieces, texts);
    HasHoleMeans(pieces);
    ContainsIff(Flatten(pieces), OPEN);
  }

  predicate HasHole(pieces: seq<Piece>) {
    pieces != [] && (pieces[0].Hole? || HasHole(pieces[1..]))
  }

  lemma {:induction false} HasHoleMeans(pieces: seq<Piece>)
    ensures HasHole(pieces) <==> exists p | p in pieces :: p.Hole?
  {
    if pieces != [] {
      HasHoleMeans(pieces[1..]);
      assert forall p | p in pieces :: p == pieces[0] || p in pieces[1..];
      assert pieces[0] in pieces && forall p | p in pieces[1..] :: p in pieces;
    }
  }

  lemma {:induction false} HasHoleJoin(a: seq<Piece>, b: seq<Piece>)
    ensures HasHole(a + b) <==> HasHole(a) || HasHole(b)
  {
    if a == [] {
      assert a + b == b;
    } else {
      assert (a + b)[1..] == a[1..] + b;
      HasHoleJoin(a[1..], b);
    }
  }

  lemma {:induction false} SplitIffHole(pieces: seq<Piece>, texts: set<string>)
    requires Sealed(texts) && Plain(pieces, texts)
    ensures Split(Flatten(pieces), OPEN).Some? <==> HasHole(pieces)
  {
    if pieces != [] {
      SplitIffHole(pieces[1..], texts);
      match pieces[0]
      case Lit(text) =>
        LitIsQuiet(text, pieces[1..], texts);
        SplitSkips(text, Flatten(pieces[1..]), OPEN);
      case Hole(body) =>
        OpenFirst(body, Flatten(pieces[1..]));
    }
  }

  /** A placeholder that no declared name fills, or that is filled with another one. */
  predicate Leaves(p: Piece, vals: PieceValues) {
    p.Hole? && (p.body in vals ==> HasHole(vals[p.body]))
  }

  predicate SomeLeaves(pieces: seq<Piece>, vals: PieceValues) {
    pieces != [] && (Leaves(pieces[0], vals) || SomeLeaves(pieces[1..], vals))
  }

  lemma {:induction false} SomeLeavesMeans(pieces: seq<Piece>, vals: PieceValues)
    ensures SomeLeaves(pieces, vals) <==> exists p | p in pieces :: Leaves(p, vals)
  {
    if pieces != [] {
      SomeLeavesMeans(pieces[1..], vals);
      assert forall p | p in pieces :: p == pieces[0] || p in pieces[1..];
      assert pieces[0] in pieces && forall p | p in pieces[1..] :: p in pieces;
    }
  }

  lemma {:induction false} SubstHoles(pieces: seq<Piece>, vals: PieceValues)
    ensures HasHole(Subst(pieces, vals.Keys, vals)) <==> SomeLeaves(pieces, vals)
  {
    if pieces != [] {
      SubstHoles(pieces[1..], vals);
      HasHoleJoin(SubstPiece(pieces[0], vals.Keys, vals), Subst(pieces[1..], vals.Keys, vals));
    }
  }

  lemma {:induction false} HasHoleIn(pieces: seq<Piece>, body: string)
    requires Hole(body) in pieces
    ensures HasHole(pieces)
  {
    HasHoleMeans(pieces);
  }

  lemma {:induction false} FilledIn(pieces: seq<Piece>, name: string, value: seq<Piece>)
    requires Hole(name) in pieces && HasHole(value)
    ensures HasHole(Fill(pieces, name, value))
  {
    var first := if pieces[0] == Hole(name) then value else [pieces[0]];
    HasHoleJoin(first, Fill(pieces[1..], name, value));
    if pieces[0] != Hole(name) {
      FilledIn(pieces[1..], name, value);
    }
  }

  lemma {:induction false} LastOne(pieces: seq<Piece>, order: seq<string>, name: string, vals: PieceValues)
    requires name in vals && forall x | x in order :: x in vals
    ensures forall x | x in order + [name] :: x in vals
    ensures FillAll(pieces, order + [name], vals) == Fill(FillAll(pieces, order, vals), name, vals[name])
  {
    assert (order + [name])[..|order|] == order;
  }

  /** A placeholder that stays is left behind by some order: by any if nothing fills it, else by those that fill it last. */
  lemma {:induction false} LeftBySome(pieces: seq<Piece>, p: Piece, vals: PieceValues) returns (order: seq<string>)
    requires p in pieces && Leaves(p, vals)
    ensures IsOrderOf(order, vals.Keys) && HasHole(FillAll(pieces, order, vals))
  {
    var keys := vals.Keys - {p.body};
    order := SomeOrder(keys);
    HoleStaysAll(pieces, p.body, order, vals);
    if p.body in vals {
      FilledIn(FillAll(pieces, order, vals), p.body, vals[p.body]);
      LastOne(pieces, order, p.body, vals);
      OrderSnoc(order, keys, p.body);
      order := order + [p.body];
      assert keys + {p.body} == vals.Keys;
    } else {
      HasHoleIn(FillAll(pieces, order, vals), p.body);
      assert keys == vals.Keys;
    }
  }

  lemma {:induction false} NoneLeft(pieces: seq<Piece>, order: seq<string>, vals: PieceValues, texts: set<string>)
    requires Sealed(texts) && Plain(pieces, texts) && PlainValues(vals, texts) && IsOrderOf(order, vals.Keys)
    requires forall p | p in pieces :: !Leaves(p, vals)
    ensures ReplaceAll(Flatten(pieces), order, TextsOf(vals)) == Flatten(Subst(pieces, vals.Keys, vals))
    ensures !Contains(Flatten(Subst(pieces, vals.Keys, vals)), OPEN)
  {
    forall a, b | a in vals && Hole(b) in vals[a] ensures HasHole(vals[a]) {
      HasHoleIn(vals[a], b);
    }
    OrderDoesNotMatter(pieces, order, vals, texts);
    SubstIsPlain(pieces, vals.Keys, vals, texts);
    SplitIffHole(Subst(pieces, vals.Keys, vals), texts);
    ContainsIff(Flatten(Subst(pieces, vals.Keys, vals)), OPEN);
    SubstHoles(pieces, vals);
    SomeLeavesMeans(pieces, vals);
  }

  /** In no order is an opening mark left. */
  ghost predicate NothingLeft(text: string, values: Values) {
    forall order | IsOrderOf(order, values.Keys) :: !Contains(ReplaceAll(text, order, values), OPEN)
  }

  /**
   Rendering is sure to leave no opening mark exactly when every placeholder's body is, character for character, a
   declared name whose value holds no placeholder. The check for undeclared names trims the body first, so a body with
   extra white space passes it and stays.
   */
  lemma {:induction false} NothingLeftIff(pieces: seq<Piece>, vals: PieceValues, texts: set<string>)
    requires Sealed(texts) && Plain(pieces, texts) && PlainValues(vals, texts)
    ensures NothingLeft(Flatten(pieces), TextsOf(vals)) <==> forall p | p in pieces :: !Leaves(p, vals)
  {
    assert TextsOf(vals).Keys == vals.Keys;
    if p :| p in pieces && Leaves(p, vals) {
      var order := LeftBySome(pieces, p, vals);
      RenderingFills(pieces, order, vals, texts);
      FillAllIsPlain(pieces, order, vals, texts);
      SplitIffHole(FillAll(pieces, order, vals), texts);
      ContainsIff(Flatten(FillAll(pieces, order, vals)), OPEN);
    } else {
      forall order | IsOrderOf(order, vals.Keys) ensures !Contains(ReplaceAll(Flatten(pieces), order, TextsOf(vals)), OPEN) {
        NoneLeft(pieces, order, vals, texts);
      }
    }
  }

  // ----- The names a template refers to -----

  lemma {:induction false} BodyIsQuiet(body: string, k: nat, rest: string)
    requires PlainName(body) && k <= |body|
    ensures Quiet(body[k..], CLOSE + rest, CLOSE)
    decreases |body| - k
  {
    if k < |body| {
      assert body[k..][1..] == body[k + 1..];
      BodyIsQuiet(body, k + 1, rest);
      NoEarlyClose(body, k, rest);
      assert (body + CLOSE + rest)[k..] == body[k..] + (CLOSE + rest);
    }
  }

  lemma {:induction false} SplitBody(body: string, rest: string)
    requires PlainName(body)
    ensures Split(body + (CLOSE + rest), CLOSE) == Some((body, rest))
  {
    BodyIsQuiet(body, 0, rest);
    assert body[0..] == body;
    SplitSkips(body, CLOSE + rest, CLOSE);
    assert (CLOSE + rest)[|CLOSE|..] == rest;
    assert body + "" == body;
  }

  function NotedAll(pieces: seq<Piece>, out: seq<string>): seq<string> {
    if pieces == [] then out
    else NotedAll(pieces[1..], if pieces[0].Hole? then Noted(out, Trim(pieces[0].body)) else out)
  }

  /** Text in front in which no opening mark starts does not change what a text refers to. */
  lemma {:induction false} ReferencedSkips(a: string, text: string, out: seq<string>)
    requires Quiet(a, text, OPEN)
    ensures Referenced(a + text, out) == Referenced(text, out)
  {
    SplitSkips(a, text, OPEN);
  }

  lemma {:induction false} ReferencedAtHole(body: string, rest: string, out: seq<string>)
    requires PlainName(body)
    ensures Referenced(Placeholder(body) + rest, out) == Referenced(rest, Noted(out, Trim(body)))
  {
    OpenFirst(body, rest);
    SplitBody(body, rest);
    QuietWithoutFirst(CLOSE, rest, OPEN);
    ReferencedSkips(CLOSE, rest, Noted(out, Trim(body)));
  }

  lemma {:induction false} OpenFirst(body: string, rest: string)
    ensures Split(Placeholder(body) + rest, OPEN) == Some(("", body + (CLOSE + rest)))
  {
    var text := Placeholder(body) + rest;
    assert text == OPEN + (body + (CLOSE + rest));
    assert text[|OPEN|..] == body + (CLOSE + rest);
  }

  /** A template refers to the trimmed bodies of its placeholders, in order of first appearance. */
  lemma {:induction false} TemplateRefersTo(pieces: seq<Piece>, out: seq<string>, texts: set<string>)
    requires Sealed(texts) && Plain(pieces, texts)
    ensures Referenced(Flatten(pieces), out) == NotedAll(pieces, out)
    decreases |pieces|
  {
    if pieces != [] {
      var rest := pieces[1..];
      match pieces[0]
      case Lit(text) =>
        LitIsQuiet(text, rest, texts);
        ReferencedSkips(text, Flatten(rest), out);
        TemplateRefersTo(rest, out, texts);
      case Hole(body) =>
        ReferencedAtHole(body, Flatten(rest), out);
        TemplateRefersTo(rest, Noted(out, Trim(body)), texts);
    }
  }

  lemma {:induction false} NotedAllMeaning(pieces: seq<Piece>, out: seq<string>, name: string)
    ensures name in NotedAll(pieces, out) <==>
            name in out || (name != "" && exists p | p in pieces :: p.Hole? && Trim(p.body) == name)
    decreases |pieces|
  {
    if pieces != [] {
      assert forall p | p in pieces :: p == pieces[0] || p in pieces[1..];
      assert pieces[0] in pieces && forall p | p in pieces[1..] :: p in pieces;
      NotedAllMeaning(pieces[1..], if pieces[0].Hole? then Noted(out, Trim(pieces[0].body)) else out, name);
    }
  }

  /** All names a template refers to are declared exactly when every non-blank placeholder body, trimmed, is. */
  lemma {:induction false} AllDeclaredIff(spec: TaskSpec, pieces: seq<Piece>, texts: set<string>)
    requires Sealed(texts) && Plain(pieces, texts) && spec.task == Flatten(pieces)
    ensures AllDeclared(spec) <==>
            forall p | p in pieces && p.Hole? && Trim(p.body) != "" :: Trim(p.body) in Declared(spec.inputs)
  {
    TemplateRefersTo(pieces, [], texts);
    forall name ensures name in Referenced(spec.task, []) <==> name != "" && exists p | p in pieces :: p.Hole? && Trim(p.body) == name {
      NotedAllMeaning(pieces, [], name);
    }
    forall p | p in pieces && p.Hole? && Trim(p.body) != "" ensures Trim(p.body) in Referenced(spec.task, []) {
    }
  }

  /** The bodies of a template's placeholders are non-empty and carry no white space at their ends. */
  predicate TidyHoles(pieces: seq<Piece>) {
    forall p | p in pieces && p.Hole? :: p.body != "" && Trim(p.body) == p.body
  }

  lemma {:induction false} QuietAlone(text: string)
    requires Split(text, OPEN).None?
    ensures Quiet(text, "", OPEN)
  {
    if text != "" {
      assert text + "" == text;
      QuietAlone(text[1..]);
    }
  }

  /** Rendered text without an opening mark refers to nothing and is left alone by rendering it again. */
  lemma {:induction false} RenderedIsFinal(text: string, order: seq<string>, values: Values)
    requires !Contains(text, OPEN) && forall name | name in order :: name in values
    ensures Referenced(text, []) == [] && ReplaceAll(text, order, values) == text
  {
    ContainsIff(text, OPEN);
    if order != [] {
      var n := |order| - 1;
      RenderedIsFinal(text, order[..n], values);
      QuietAlone(text);
      QuietForLonger(text, "", order[n] + CLOSE);
      assert OPEN + (order[n] + CLOSE) == Placeholder(order[n]);
      ReplaceSkips(text, "", Placeholder(order[n]), values[order[n]]);
      assert text + "" == text;
    }
  }

  /** What rendering a text without an opening mark gives: the text itself, if the inputs resolve. */
  lemma {:induction false} FinalRenders(spec: TaskSpec, values: Values, isNumber: string -> bool, r: Result<RenderedTask, Error>)
    requires !Contains(spec.task, OPEN) && Resolve(spec.inputs, values, isNumber).Ok? && Renders(spec, values, isNumber, r)
    ensures r == Ok(RenderedTask(spec.task, RulesBlock(spec.rules)))
  {
    var m := Resolve(spec.inputs, values, isNumber).value;
    RenderedIsFinal(spec.task, [], m);
    var order :| IsOrderOf(order, m.Keys) && r == Ok(RenderedTask(ReplaceAll(spec.task, order, m), RulesBlock(spec.rules)));
    RenderedIsFinal(spec.task, order, m);
  }

  /**
   A template with tidy placeholders whose names are declared, and whose inputs resolve to values without placeholders:
   whatever the order, rendering it gives the simultaneous substitution, in which no opening mark is left, and rendering
   the result again gives the result.
   */
  lemma {:induction false} TidyTemplate(
    spec: TaskSpec, pieces: seq<Piece>, values: Values, isNumber: string -> bool, vals: PieceValues, texts: set<string>,
    r: Result<RenderedTask, Error>)
    requires Sealed(texts) && Plain(pieces, texts) && TidyHoles(pieces) && spec.task == Flatten(pieces)
    requires AllDeclared(spec) && Resolve(spec.inputs, values, isNumber) == Ok(TextsOf(vals))
    requires PlainValues(vals, texts) && forall name | name in vals :: !HasHole(vals[name])
    requires Renders(spec, values, isNumber, r)
    ensures r == Ok(RenderedTask(Flatten(Subst(pieces, vals.Keys, vals)), RulesBlock(spec.rules)))
    ensures !Contains(r.value.task, OPEN)
    ensures forall again | Renders(spec.(task := r.value.task), values, isNumber, again) :: again == r
  {
    AllDeclaredIff(spec, pieces, texts);
    ResolveMeaning(spec.inputs, values, isNumber);
    assert TextsOf(vals).Keys == vals.Keys;
    var order :| IsOrderOf(order, vals.Keys)
                 && r == Ok(RenderedTask(ReplaceAll(spec.task, order, TextsOf(vals)), RulesBlock(spec.rules)));
    NoneLeft(pieces, order, vals, texts);
    forall again | Renders(spec.(task := r.value.task), values, isNumber, again) ensures again == r {
      FinalRenders(spec.(task := r.value.task), values, isNumber, again);
    }
  }

  // ----- Where the conditions are needed -----

  lemma {:induction false} OnlyHole(body: string)
    ensures Sealed({}) && Flatten([Hole(body)]) == Placeholder(body)
    ensures PlainName(body) ==> Plain([Hole(body)], {})
  {
    FlattenOne(Hole(body));
    assert [Hole(body)][1..] == [];
  }

  /** A placeholder with a space too many: its name passes as declared, and it stays in the rendered text. */
  lemma {:induction false} SpacedPlaceholderStays(value: string)
    ensures var spec := TaskSpec(Placeholder("a "), [], [InputSpec("a", Text, true, None)]);
            AllDeclared(spec) && ReplaceAll(spec.task, ["a"], map["a" := value]) == spec.task
  {
    var spec := TaskSpec(Placeholder("a "), [], [InputSpec("a", Text, true, None)]);
    OnlyHole("a ");
    SpacedIsPlain();
    AllDeclaredIff(spec, [Hole("a ")], {});
    assert spec.inputs[0] in spec.inputs;
    assert Placeholder("a ") + "" == Placeholder("a ");
    ReplaceOther("a ", "", "a", value);
    assert ["a"][..0] == [];
    assert ReplaceAll(spec.task, ["a"], map["a" := value]) == Replace(ReplaceAll(spec.task, [], map["a" := value]), Placeholder("a"), value);
  }

  lemma {:induction false} SpacedIsPlain()
    ensures PlainName("a ") && PlainName("a") && Trim("a ") == "a"
  {
    assert "a "[1..] == " " && " "[1..] == "" && "a"[1..] == "" && "a "[..1] == "a";
    assert Split("", CLOSE).None? && Split(" ", CLOSE).None?;
  }

  /** A value that is itself a placeholder makes the result depend on the order. */
  lemma {:induction false} OrderMattersWithPlaceholderValues(x: string)
    requires Split(x, OPEN).None? && !Seam(x, x)
    ensures var values := map["a" := Placeholder("b"), "b" := x];
            !OrderFree(Placeholder("a"), values)
  {
    var vals: PieceValues := map["a" := [Hole("b")], "b" := [Lit(x)]];
    OnlyHole("a");
    OnlyHole("b");
    FlattenOne(Lit(x));
    SpacedIsPlain();
    ShortIsPlain("b");
    assert [Hole("a")][1..] == [] && [Hole("b")][1..] == [] && [Lit(x)][1..] == [];
    assert TextsOf(vals) == map["a" := Placeholder("b"), "b" := x];
    assert Split(Placeholder("b") + "", OPEN).Some? by {
      OpenFirst("b", "");
    }
    assert Placeholder("b") + "" == Placeholder("b");
    NotFree([Hole("a")], "a", "b", vals, {x});
  }

  lemma {:induction false} OneOfTwo(order: seq<string>, i: nat, j: nat, k: nat)
    requires i < |order| && j < |order| && k < |order| && IsOrderOf(order, {order[i], order[j]})
    ensures k == i || k == j
  {
    assert order[k] in order;
  }

  /** The orders of two names. */
  lemma {:induction false} OrdersOfTwo(order: seq<string>, a: string, b: string)
    requires a != b && IsOrderOf(order, {a, b})
    ensures order == [a, b] || order == [b, a]
  {
    assert a in order && b in order;
    var i: nat :| i < |order| && order[i] == a;
    var j: nat :| j < |order| && order[j] == b;
    OneOfTwo(order, i, j, 0);
    OneOfTwo(order, i, j, 1);
    OneOfTwo(order, i, j, |order| - 1);
  }

  lemma {:induction false} FillPair(x: string, y: string, name: string, value: seq<Piece>)
    requires x != y && (name == x || name == y)
    ensures Fill([Hole(x), Hole(y)], name, value) == if name == x then value + [Hole(y)] else [Hole(x)] + value
  {
    FillOne(Hole(x), name, value);
    FillOne(Hole(y), name, value);
    FillJoin([Hole(x)], [Hole(y)], name, value);
    assert [Hole(x)] + [Hole(y)] == [Hole(x), Hole(y)];
  }

  lemma {:induction false} FillTurns(name: string, value: seq<Piece>)
    requires name == "a" || name == "b"
    requires value == if name == "a" then [Hole("a"), Hole("b"), Hole("a")] else [Hole("b"), Hole("a"), Hole("b")]
    ensures Fill([Hole("a"), Hole("b")], name, value) == [Hole("a"), Hole("b"), Hole("a"), Hole("b")]
  {
    FillPair("a", "b", name, value);
  }

  lemma {:induction false} FillMoreTurns(name: string, value: seq<Piece>)
    requires name == "a" || name == "b"
    requires value == if name == "a" then [Hole("a"), Hole("b"), Hole("a")] else [Hole("b"), Hole("a"), Hole("b")]
    ensures Fill([Hole("a"), Hole("b"), Hole("a"), Hole("b")], name, value) ==
            [Hole("a"), Hole("b"), Hole("a"), Hole("b"), Hole("a"), Hole("b"), Hole("a"), Hole("b")]
  {
    var two := [Hole("a"), Hole("b")];
    FillTurns(name, value);
    FillJoin(two, two, name, value);
    assert two + two == [Hole("a"), Hole("b"), Hole("a"), Hole("b")];
  }

  lemma {:induction false} HolesArePlain(x: string, y: string)
    requires PlainName(x) && PlainName(y)
    ensures Plain([Hole(x), Hole(y)], {}) && Plain([Hole(x), Hole(y), Hole(x)], {})
  {
    PlainJoin([Hole(x)], [Hole(y)], {});
    PlainJoin([Hole(x), Hole(y)], [Hole(x)], {});
    OnlyHole(x);
    OnlyHole(y);
    assert [Hole(x)] + [Hole(y)] == [Hole(x), Hole(y)] && [Hole(x), Hole(y)] + [Hole(x)] == [Hole(x), Hole(y), Hole(x)];
  }

  function Mutual(): PieceValues {
    map["a" := [Hole("a"), Hole("b"), Hole("a")], "b" := [Hole("b"), Hole("a"), Hole("b")]]
  }

  lemma {:induction false} MutualIsPlain()
    ensures Plain([Hole("a"), Hole("b")], {}) && PlainValues(Mutual(), {}) && Sealed({})
  {
    SpacedIsPlain();
    ShortIsPlain("b");
    HolesArePlain("a", "b");
    HolesArePlain("b", "a");
  }

  lemma {:induction false} MutualIsNotCalm()
    ensures !Calm([Hole("a"), Hole("b")], Mutual())
  {
    TwoHolesDiffer();
    assert Hole("a") in [Hole("a"), Hole("b")] && Hole("b") in Mutual()["a"];
  }

  /**
   Two values that hold each other's placeholders can agree in both orders although they are not calm, so for such
   values calm is not the exact condition.
   */
  lemma {:induction false} MutualValuesMayAgree()
    ensures !Calm([Hole("a"), Hole("b")], Mutual())
    ensures OrderFree(Flatten([Hole("a"), Hole("b")]), TextsOf(Mutual()))
  {
    MutualIsNotCalm();
    MutualIsPlain();
    assert TextsOf(Mutual()).Keys == {"a", "b"};
    forall order | IsOrderOf(order, {"a", "b"})
      ensures ReplaceAll(Flatten([Hole("a"), Hole("b")]), order, TextsOf(Mutual())) ==
              Flatten([Hole("a"), Hole("b"), Hole("a"), Hole("b"), Hole("a"), Hole("b"), Hole("a"), Hole("b")])
    {
      OrdersOfTwo(order, "a", "b");
      RenderingFills([Hole("a"), Hole("b")], order, Mutual(), {});
      BothTurns(order[0], order[1], Mutual());
    }
  }

  lemma {:induction false} BothTurns(x: string, y: string, vals: PieceValues)
    requires vals == Mutual() && x in vals && y in vals
    ensures FillAll([Hole("a"), Hole("b")], [x, y], vals) ==
            [Hole("a"), Hole("b"), Hole("a"), Hole("b"), Hole("a"), Hole("b"), Hole("a"), Hole("b")]
  {
    LastTwo([Hole("a"), Hole("b")], [], x, y, vals);
    assert [] + [x, y] == [x, y];
    FillTurns(x, vals[x]);
    FillMoreTurns(y, vals[y]);
  }

  lemma {:induction false} TwoHolesDiffer()
    ensures Flatten([Hole("b"), Hole("a"), Hole("b")]) != Placeholder("b")
  {
    var more := [Hole("a"), Hole("b")];
    assert [Hole("b"), Hole("a"), Hole("b")][1..] == more;
    assert Flatten(more) == Placeholder("a") + Flatten(more[1..]);
    assert |Flatten(more)| > 0;
  }

  lemma {:induction false} ShortIsPlain(name: string)
    requires |name| == 1 && name[0] != '$'
    ensures PlainName(name)
  {
    assert Split(name[1..], CLOSE).None?;
  }
}
