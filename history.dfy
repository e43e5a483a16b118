/** The rolling history of measurements: oldest first, capped at
    HISTORY_MAX_LENGTH entries. Each run loads it, appends the new
    measurement, cuts it back to the most recent entries and saves it. */
module History {
  import opened Measurement

  const HISTORY_MAX_LENGTH: nat := 120

  /** The last HISTORY_MAX_LENGTH entries of `s`, or all of `s` when it is
      shorter (Python's `s[-HISTORY_MAX_LENGTH:]`). */
  function MostRecent<T>(s: seq<T>): (r: seq<T>)
    ensures |r| == if |s| < HISTORY_MAX_LENGTH then |s| else HISTORY_MAX_LENGTH
    ensures r == s[|s| - |r|..]
  {
    if |s| <= HISTORY_MAX_LENGTH then s else s[|s| - HISTORY_MAX_LENGTH..]
  }

  /** One run's update of the history, as a value: append, then cut back.
      The result grows by one entry until it reaches the cap. */
  function Appended<T>(h: seq<T>, x: T): (r: seq<T>)
    ensures |r| == if |h| + 1 < HISTORY_MAX_LENGTH then |h| + 1 else HISTORY_MAX_LENGTH
  {
    MostRecent(h + [x])
  }

  /** The history after a series of runs, one append per run, in order. */
  function AppendAll<T>(h: seq<T>, xs: seq<T>): seq<T>
    decreases |xs|
  {
    if xs == [] then h else AppendAll(Appended(h, xs[0]), xs[1..])
  }

  /** The in-memory history of one run. */
  class History {
    var entries: seq<Record>

    /** The cap that every `Append` re-establishes. `Load` does not promise
        it: a stored file may hold more entries, which the next `Append`
        cuts back. */
    ghost predicate Valid()
      reads this
    {
      |entries| <= HISTORY_MAX_LENGTH
    }

    /** The history as loaded at start-up: the stored list when the history
        file exists, the empty list when it does not (a cold start). */
    constructor Load(stored: Option<seq<Record>>)
      ensures entries == if stored.Some? then stored.value else []
    {
      entries := if stored.Some? then stored.value else [];
    }

    /** `history.append(r)` followed by `history = history[-HISTORY_MAX_LENGTH:]`.
        No precondition: a stored list that is already too long is cut back too. */
    method Append(r: Record)
      modifies this
      ensures Valid()
      ensures entries == Appended(old(entries), r)
      ensures entries == MostRecent(old(entries) + [r])
      ensures |entries| == if |old(entries)| + 1 < HISTORY_MAX_LENGTH then |old(entries)| + 1 else HISTORY_MAX_LENGTH
      ensures entries != [] && entries[|entries| - 1] == r
      ensures entries[..|entries| - 1] == old(entries)[|old(entries)| + 1 - |entries|..]
    {
      entries := entries + [r];
      entries := entries[if |entries| <= HISTORY_MAX_LENGTH then 0 else |entries| - HISTORY_MAX_LENGTH..];
    }
  }

  /** The new entry is always kept, as the newest one. */
  lemma AppendedKeepsNewest<T>(h: seq<T>, x: T)
    ensures Appended(h, x) != [] && Appended(h, x)[|Appended(h, x)| - 1] == x
  {
  }

  /** Below capacity nothing is dropped. */
  lemma AppendedBelowCapacity<T>(h: seq<T>, x: T)
    requires |h| < HISTORY_MAX_LENGTH
    ensures Appended(h, x) == h + [x]
  {
  }

  /** At capacity exactly the oldest entry is dropped. */
  lemma AppendedAtCapacity<T>(h: seq<T>, x: T)
    requires |h| == HISTORY_MAX_LENGTH
    ensures Appended(h, x) == h[1..] + [x]
  {
  }

  /** Cutting back after every append is the same as cutting back once at
      the end (with no append at all, only a history within the cap is
      already cut back). */
  lemma {:induction false} AppendAllIsMostRecent<T>(h: seq<T>, xs: seq<T>)
    requires xs != [] || |h| <= HISTORY_MAX_LENGTH
    ensures AppendAll(h, xs) == MostRecent(h + xs)
    decreases |xs|
  {
    if xs != [] {
      var t := xs[1..];
      var h' := Appended(h, xs[0]);
      AppendAllIsMostRecent(h', t);
      assert MostRecent(h' + t) == MostRecent(h + xs) by {
        var s := h + [xs[0]];
        assert h + xs == s + t;
        MostRecentTwice(s, t);
      }
    }
  }

  /** Cutting back early does not change what a later cut keeps. */
  lemma MostRecentTwice<T>(s: seq<T>, t: seq<T>)
    ensures MostRecent(MostRecent(s) + t) == MostRecent(s + t)
  {
    if |s| > HISTORY_MAX_LENGTH {
      // both cuts keep the last HISTORY_MAX_LENGTH entries of `s + t`
      var k := |s| - HISTORY_MAX_LENGTH;
      var u := s + t;
      var v := MostRecent(s) + t;
      assert |v| == HISTORY_MAX_LENGTH + |t| && |u| == |v| + k;
      assert v == u[k..] by {
        assert MostRecent(s) == s[k..];
      }
      var m := |t|;
      assert MostRecent(v) == v[m..] && MostRecent(u) == u[k + m..];
      assert v[m..] == u[k + m..];
    }
  }

  /** After N runs starting from an empty history, the history holds the
      min(N, HISTORY_MAX_LENGTH) most recent measurements in the order taken. */
  lemma RunsFromEmpty<T>(xs: seq<T>)
    ensures |AppendAll([], xs)| == if |xs| < HISTORY_MAX_LENGTH then |xs| else HISTORY_MAX_LENGTH
    ensures AppendAll([], xs) == xs[|xs| - |AppendAll([], xs)|..]
  {
    var r := AppendAll([], xs);
    AppendAllIsMostRecent([], xs);
    assert [] + xs == xs;
    assert r == MostRecent(xs);
    assert r == xs[|xs| - |r|..];
  }
}
