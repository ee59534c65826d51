/** The step history carried into later prompts: the newest entries, each cut to a fixed length. */
module StepHistories {
  const MAX_ENTRIES: nat := 50
  const MAX_ENTRY_CHARS: nat := 2000
  const MAX_TOTAL_CHARS: nat := 500_000
  const MARKER := "\U{2026}[truncated]"

  function Cut(entry: string): (c: string)
    ensures |c| <= MAX_ENTRY_CHARS + |MARKER|
  {
    if |entry| > MAX_ENTRY_CHARS then entry[..MAX_ENTRY_CHARS] + MARKER else entry
  }

  function CutAll(entries: seq<string>): (cut: seq<string>)
    ensures |cut| == |entries|
  {
    if entries == [] then [] else CutAll(entries[..|entries| - 1]) + [Cut(entries[|entries| - 1])]
  }

  function Newest(entries: seq<string>, n: nat): seq<string> {
    if |entries| <= n then entries else entries[|entries| - n..]
  }

  function Total(entries: seq<string>): nat {
    if entries == [] then 0 else Total(entries[..|entries| - 1]) + |entries[|entries| - 1]|
  }

  predicate TooLarge(entries: seq<string>) {
    Total(entries) > MAX_TOTAL_CHARS && |entries| > 1
  }

  /** Drop the oldest entries while the whole is too large. */
  function Fitted(entries: seq<string>): seq<string>
    decreases |entries|
  {
    if TooLarge(entries) then Fitted(entries[1..]) else entries
  }

  function Pushed(history: seq<string>, entry: string): seq<string> {
    Fitted(Newest(history + [Cut(entry)], MAX_ENTRIES))
  }

  class StepHistory {
    var history: seq<string>

    constructor ()
      ensures history == []
    {
      history := [];
    }

    /** Append an entry, then drop the oldest while there are too many, or while they are too large. */
    method PushHistory(entry: string)
      modifies this
      ensures history == Pushed(old(history), entry)
    {
      history := history + [Cut(entry)];
      ghost var all := history;
      while |history| > MAX_ENTRIES
        invariant Newest(history, MAX_ENTRIES) == Newest(all, MAX_ENTRIES)
        decreases |history|
      {
        NewestOfRest(history);
        history := history[1..];
      }
      while TooLarge(history)
        invariant Fitted(history) == Pushed(old(history), entry)
        decreases |history|
      {
        history := history[1..];
      }
    }
  }

  lemma {:induction false} NewestOfRest(entries: seq<string>)
    requires |entries| > MAX_ENTRIES
    ensures Newest(entries[1..], MAX_ENTRIES) == Newest(entries, MAX_ENTRIES)
  {
  }

  /** What fits is the longest end of the entries with at most 500000 characters, or the last entry alone. */
  lemma {:induction false} FittedIs(entries: seq<string>) returns (k: nat)
    ensures k <= |entries| && Fitted(entries) == entries[k..]
    ensures Total(entries[k..]) <= 500_000 || |entries[k..]| <= 1
    ensures forall j | 0 <= j < k :: Total(entries[j..]) > 500_000 && |entries[j..]| > 1
  {
    k := 0;
    assert entries[0..] == entries;
    while TooLarge(entries[k..])
      invariant k <= |entries| && Fitted(entries[k..]) == Fitted(entries)
      invariant forall j | 0 <= j < k :: TooLarge(entries[j..])
      decreases |entries| - k
    {
      assert entries[k..][1..] == entries[k + 1..];
      k := k + 1;
    }
  }

  // ----- After any pushes -----

  /** The history after pushing these entries, from an empty one. */
  function After(pushes: seq<string>): seq<string> {
    if pushes == [] then [] else Pushed(After(pushes[..|pushes| - 1]), pushes[|pushes| - 1])
  }

  predicate AllCut(entries: seq<string>) {
    forall entry | entry in entries :: |entry| <= MAX_ENTRY_CHARS + |MARKER|
  }

  lemma {:induction false} TotalOfCut(entries: seq<string>)
    requires AllCut(entries)
    ensures Total(entries) <= |entries| * (MAX_ENTRY_CHARS + |MARKER|)
  {
    if entries != [] {
      TotalOfCut(entries[..|entries| - 1]);
    }
  }

  /** Fifty cut entries are never too large, so dropping for size drops nothing. */
  lemma {:induction false} NeverTooLarge(entries: seq<string>)
    requires AllCut(entries) && |entries| <= MAX_ENTRIES
    ensures !TooLarge(entries) && Fitted(entries) == entries
  {
    TotalOfCut(entries);
    assert |MARKER| == 12;
  }

  lemma {:induction false} CutAllIsCut(entries: seq<string>)
    ensures AllCut(CutAll(entries))
  {
    if entries != [] {
      CutAllIsCut(entries[..|entries| - 1]);
    }
  }

  lemma {:induction false} NewestSnoc(entries: seq<string>, entry: string, n: nat)
    requires n > 0
    ensures Newest(Newest(entries, n) + [entry], n) == Newest(entries + [entry], n)
  {
  }

  lemma {:induction false} NewestIsCut(entries: seq<string>, n: nat)
    requires AllCut(entries)
    ensures AllCut(Newest(entries, n))
  {
  }

  /** After any pushes the history is the last fifty of them, in order, each cut to length. */
  lemma {:induction false} HistoryIsNewest(pushes: seq<string>)
    ensures After(pushes) == Newest(CutAll(pushes), MAX_ENTRIES)
  {
    if pushes != [] {
      var front, last := pushes[..|pushes| - 1], pushes[|pushes| - 1];
      HistoryIsNewest(front);
      NewestSnoc(CutAll(front), Cut(last), MAX_ENTRIES);
      CutAllIsCut(pushes);
      NewestIsCut(CutAll(pushes), MAX_ENTRIES);
      NeverTooLarge(Newest(CutAll(pushes), MAX_ENTRIES));
    }
  }

  /** Each entry is the pushed one if that is short, else its first 2000 characters and the marker. */
  lemma {:induction false} EntryIs(pushes: seq<string>, k: nat)
    requires k < |After(pushes)|
    ensures |After(pushes)| == if |pushes| < 50 then |pushes| else 50
    ensures var pushed, entry := pushes[|pushes| - |After(pushes)| + k], After(pushes)[k];
            if |pushed| <= 2000 then entry == pushed
            else |entry| == 2012 && entry[..2000] == pushed[..2000] && entry[2000..] == "\U{2026}[truncated]"
  {
    HistoryIsNewest(pushes);
    CutAllAt(pushes, |pushes| - |After(pushes)| + k);
  }

  lemma {:induction false} CutAllAt(entries: seq<string>, k: nat)
    requires k < |entries|
    ensures CutAll(entries)[k] == Cut(entries[k])
  {
    if k < |entries| - 1 {
      CutAllAt(entries[..|entries| - 1], k);
    }
  }
}
