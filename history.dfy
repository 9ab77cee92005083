/** The history log kept across runs: append one entry, keep the latest 100. */
module History {

  /** One run: when it happened, the number drawn, the displayed name and types. */
  datatype HistoryEntry = HistoryEntry(timestamp: string, pokemonId: int, pokemonName: string, types: string)

  const MaxEntries: nat := 100

  /** The last `n` elements of `s`, or all of them when there are fewer. */
  function KeepLast<T>(s: seq<T>, n: nat): seq<T>
  {
    if |s| > n then s[|s| - n..] else s
  }

  /** The history after one successful run. */
  function Appended(history: seq<HistoryEntry>, entry: HistoryEntry): seq<HistoryEntry>
  {
    KeepLast(history + [entry], MaxEntries)
  }

  /** The history step of `main`: append the new entry; if that makes more
      than 100, keep only the last 100. The new entry is last, and the
      result is the newest part of the old history followed by it. */
  method AppendEntry(history: seq<HistoryEntry>, entry: HistoryEntry) returns (h: seq<HistoryEntry>)
    ensures |h| == if |history| + 1 < MaxEntries then |history| + 1 else MaxEntries
    ensures h[|h| - 1] == entry
    ensures h == (history + [entry])[|history| + 1 - |h|..]
    ensures h == Appended(history, entry)
  {
    h := history + [entry];
    if |h| > MaxEntries {
      h := h[|h| - MaxEntries..];
    }
  }

  /** The history after one run per entry, oldest run first. */
  function Replay(history: seq<HistoryEntry>, entries: seq<HistoryEntry>): seq<HistoryEntry>
    decreases |entries|
  {
    if entries == [] then history
    else Replay(Appended(history, entries[0]), entries[1..])
  }

  /** Truncating early does not change which elements end up last. */
  lemma KeepLastAbsorbs<T>(s: seq<T>, t: seq<T>, n: nat)
    ensures KeepLast(KeepLast(s, n) + t, n) == KeepLast(s + t, n)
  {
  }

  /** After any number of runs the history is the latest at most 100 of all
      entries ever recorded, oldest first: it never exceeds 100 entries and
      the oldest are the ones dropped. */
  lemma {:induction false} ReplayKeepsLatest(history: seq<HistoryEntry>, entries: seq<HistoryEntry>)
    requires |history| <= MaxEntries
    ensures Replay(history, entries) == KeepLast(history + entries, MaxEntries)
    ensures |Replay(history, entries)| <= MaxEntries
    decreases |entries|
  {
    if entries == [] {
      assert history + entries == history;
    } else {
      ReplayKeepsLatest(Appended(history, entries[0]), entries[1..]);
      KeepLastAbsorbs(history + [entries[0]], entries[1..], MaxEntries);
      assert history + [entries[0]] + entries[1..] == history + entries;
    }
  }

  /** A loaded history of any length, even over 100, is brought back to the
      latest 100 entries by the first run and stays there. */
  lemma {:induction false} ReplayFromAnyHistory(history: seq<HistoryEntry>, entries: seq<HistoryEntry>)
    requires entries != []
    ensures Replay(history, entries) == KeepLast(history + entries, MaxEntries)
    ensures |Replay(history, entries)| <= MaxEntries
  {
    ReplayKeepsLatest(Appended(history, entries[0]), entries[1..]);
    KeepLastAbsorbs(history + [entries[0]], entries[1..], MaxEntries);
    assert history + [entries[0]] + entries[1..] == history + entries;
  }
}
