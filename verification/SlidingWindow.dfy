/** The bounded window of offset records kept for one partition. */
module SlidingWindow {
  import opened LagTypes

  /** The most recent records, at most size of them. */
  function WindowOf(history: seq<OffsetRecord>, size: nat): seq<OffsetRecord> {
    if |history| <= size then history else history[|history| - size..]
  }

  /** What one addition does to a window: append, then drop the oldest when there is one too many. */
  function Push(window: seq<OffsetRecord>, record: OffsetRecord, size: nat): seq<OffsetRecord> {
    var longer := window + [record];
    if |longer| > size then longer[1..] else longer
  }

  /** Sliding keeps the window equal to the most recent records. */
  lemma WindowSlides(history: seq<OffsetRecord>, record: OffsetRecord, size: nat)
    ensures Push(WindowOf(history, size), record, size) == WindowOf(history + [record], size)
    ensures |WindowOf(history, size)| == Min(|history|, size)
  {
    if |history| >= size {
      assert WindowOf(history, size) == history[|history| - size..];
      assert (history + [record])[|history| - size..] == history[|history| - size..] + [record];
    }
  }

  function PushAll(window: seq<OffsetRecord>, records: seq<OffsetRecord>, size: nat): seq<OffsetRecord> {
    if records == [] then window
    else Push(PushAll(window, records[..|records| - 1], size), records[|records| - 1], size)
  }

  /**
   A window over a backing array, as a slice is: the live records are buf[start..start + len].
   Appending writes in place while there is room behind the records and moves to a larger array otherwise;
   dropping the oldest record only advances start.
   */
  class PartitionWindow {
    ghost var contents: seq<OffsetRecord>

    const windowSize: nat
    var buf: array<OffsetRecord>
    var start: nat
    var len: nat

    ghost predicate Valid()
      reads this, buf
    {
      start + len <= buf.Length && len <= windowSize && contents == buf[start..start + len]
    }

    constructor (windowSize: nat)
      ensures Valid() && contents == [] && fresh(buf)
      ensures this.windowSize == windowSize
    {
      this.windowSize := windowSize;
      buf := new OffsetRecord[windowSize];
      start, len, contents := 0, 0, [];
    }

    /** Moves the records to a larger array. */
    method Grow()
      requires Valid()
      modifies this
      ensures Valid() && fresh(buf) && contents == old(contents)
      ensures start == 0 && len == old(len) && len < buf.Length
    {
      var capacity: nat :| capacity > len;
      var larger := new OffsetRecord[capacity];
      forall i | 0 <= i < len {
        larger[i] := buf[start + i];
      }
      buf, start := larger, 0;
    }

    method Append(record: OffsetRecord)
      requires Valid()
      modifies this, buf
      ensures Valid() && (buf == old(buf) || fresh(buf))
      ensures contents == Push(old(contents), record, windowSize)
    {
      if start + len == buf.Length {
        Grow();
      }
      buf[start + len] := record;
      assert buf[start..start + len + 1] == contents + [record];
      len := len + 1;
      if len > windowSize {
        start, len := start + 1, len - 1;
      }
      contents := Push(contents, record, windowSize);
    }

    /** A copy of the records in an array of its own. */
    method Records() returns (copy: array<OffsetRecord>)
      requires Valid()
      ensures fresh(copy) && copy[..] == contents
    {
      copy := new OffsetRecord[len];
      forall i | 0 <= i < len {
        copy[i] := buf[start + i];
      }
    }

    /** A copy taken from the window stays as it was, however many records are added afterwards. */
    method CopySurvivesAdditions(later: seq<OffsetRecord>) returns (copy: array<OffsetRecord>)
      requires Valid()
      modifies this, buf
      ensures Valid() && fresh(copy) && copy[..] == old(contents)
      ensures contents == PushAll(old(contents), later, windowSize)
    {
      copy := Records();
      for i := 0 to |later|
        invariant Valid() && (buf == old(buf) || fresh(buf)) && buf != copy
        invariant fresh(copy) && copy[..] == old(contents)
        invariant contents == PushAll(old(contents), later[..i], windowSize)
      {
        Append(later[i]);
        assert later[..i + 1][..i] == later[..i];
      }
      assert later[..|later|] == later;
    }
  }

  /** From an empty window, any number of additions leaves exactly the most recent records, in order. */
  lemma {:induction false} AdditionsKeepTheMostRecent(records: seq<OffsetRecord>, size: nat)
    ensures PushAll([], records, size) == WindowOf(records, size)
  {
    if records != [] {
      var n := |records|;
      AdditionsKeepTheMostRecent(records[..n - 1], size);
      WindowSlides(records[..n - 1], records[n - 1], size);
      assert records == records[..n - 1] + [records[n - 1]];
    }
  }
}
