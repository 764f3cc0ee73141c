/** The text both registries' `getPrintedState` builds. */
module Printing {

  /** The entries separated by `", "`, with no separator after the last one;
      empty when there are no entries. */
  function Joined(entries: seq<string>): string
  {
    if |entries| == 0 then ""
    else if |entries| == 1 then entries[0]
    else Joined(entries[..|entries| - 1]) + ", " + entries[|entries| - 1]
  }

  /** Joining from the front gives the same text: the first entry, then
      `", "` and the rest. */
  lemma {:induction false} JoinedFront(first: string, rest: seq<string>)
    requires rest != []
    ensures Joined([first] + rest) == first + ", " + Joined(rest)
    decreases |rest|
  {
    var all := [first] + rest;
    if |rest| > 1 {
      var init := rest[..|rest| - 1];
      assert all[..|all| - 1] == [first] + init;
      JoinedFront(first, init);
    } else {
      assert all[..|all| - 1] == [first];
    }
  }

  /** The joined text is as long as the entries plus two characters per
      separator, and it ends with the last entry. */
  lemma {:induction false} JoinedLength(entries: seq<string>)
    requires entries != []
    ensures |Joined(entries)| == TotalLength(entries) + 2 * (|entries| - 1)
    ensures var last := entries[|entries| - 1];
      |Joined(entries)| >= |last| && Joined(entries)[|Joined(entries)| - |last|..] == last
    decreases |entries|
  {
    if |entries| > 1 {
      var init := entries[..|entries| - 1];
      JoinedLength(init);
      TotalLengthSnoc(init, entries[|entries| - 1]);
      assert init + [entries[|entries| - 1]] == entries;
    }
  }

  function TotalLength(entries: seq<string>): nat
  {
    if entries == [] then 0 else |entries[0]| + TotalLength(entries[1..])
  }

  lemma {:induction false} TotalLengthSnoc(entries: seq<string>, last: string)
    ensures TotalLength(entries + [last]) == TotalLength(entries) + |last|
    decreases |entries|
  {
    if entries == [] {
      assert [] + [last] == [last];
    } else {
      assert (entries + [last])[1..] == entries[1..] + [last];
      TotalLengthSnoc(entries[1..], last);
    }
  }

  /** The text `getPrintedState` has built after the first `i` entries: each
      entry followed by `", "` unless it is the last one. */
  function Printed(entries: seq<string>, i: nat): string
    requires i <= |entries|
  {
    if i == 0 then ""
    else if i < |entries| then Printed(entries, i - 1) + entries[i - 1] + ", "
    else Printed(entries, i - 1) + entries[i - 1]
  }

  /** Appending the next entry, and the separator unless it is the last,
      extends the text by one entry. */
  lemma PrintedNext(entries: seq<string>, i: nat, text: string, entry: string)
    requires i < |entries| && text == Printed(entries, i) && entry == entries[i]
    ensures i + 1 < |entries| ==> text + entry + ", " == Printed(entries, i + 1)
    ensures i + 1 == |entries| ==> text + entry == Printed(entries, i + 1)
  {
  }

  /** After `i` entries the text is those entries joined, followed by the
      separator unless they are all the entries. */
  lemma {:induction false} PrintedPrefix(entries: seq<string>, i: nat)
    requires 0 < i <= |entries|
    ensures Printed(entries, i) == Joined(entries[..i]) + (if i < |entries| then ", " else "")
    decreases i
  {
    if i == 1 {
      assert entries[..1] == [entries[0]];
    } else {
      PrintedPrefix(entries, i - 1);
      assert entries[..i][..i - 1] == entries[..i - 1];
    }
  }

  /** Once every entry is appended the text is the entries joined by `", "`. */
  lemma PrintedAll(entries: seq<string>)
    ensures Printed(entries, |entries|) == Joined(entries)
  {
    if entries != [] {
      PrintedPrefix(entries, |entries|);
      assert entries[..|entries|] == entries;
    }
  }
}
