/** What one audio callback of a sequence dispatches, stated on values: the
    buffers of the queue, each seen as its events and its length in frames.
    The imperative `ProgressCursor` of module Sequences is proved to compute
    exactly this. */
module Dispatch {
  import opened MetroEvents

  /** A prepared buffer as the dispatcher sees it. */
  datatype Bar = Bar(events: seq<Event>, lengthInFrames: int)

  /** A message handed to the MIDI output: its frame offset counts from the
      first frame of the current callback. */
  datatype MidiMessage = MidiMessage(port: int, offset: int, data: seq<byte>)

  /** An event the dispatcher reached inside the window, with its offset
      relative to the callback. */
  datatype Fired = Fired(event: Event, relative: int)

  // ---------------------------------------------------------------------
  // One buffer

  /** The events fired from index `i` on, when the window is [lo, hi) in the
      buffer's own frames and `found` says whether an earlier event matched:
      every matching event fires, and the first miss after a match ends the
      scan. */
  function Scan(evs: seq<Event>, i: nat, lo: int, hi: int, found: bool): (r: seq<Fired>)
    requires i <= |evs|
    decreases |evs| - i
  {
    if i == |evs| then []
    else if evs[i].Between(lo, hi) then [Fired(evs[i], evs[i].inFrames - lo)] + Scan(evs, i + 1, lo, hi, true)
    else if found then []
    else Scan(evs, i + 1, lo, hi, false)
  }

  /** Soundness of the scan: it fires only events in [lo, hi), each at its
      offset from `lo`, which therefore lies in [0, hi - lo); and it fires no
      more events than remain. */
  lemma {:induction false} ScanSound(evs: seq<Event>, i: nat, lo: int, hi: int, found: bool)
    requires i <= |evs|
    ensures |Scan(evs, i, lo, hi, found)| <= |evs| - i
    ensures forall f :: f in Scan(evs, i, lo, hi, found) ==>
      f.event.Between(lo, hi) && f.relative == f.event.inFrames - lo && 0 <= f.relative < hi - lo
    decreases |evs| - i
  {
    if i < |evs| {
      if evs[i].Between(lo, hi) {
        ScanSound(evs, i + 1, lo, hi, true);
      } else if !found {
        ScanSound(evs, i + 1, lo, hi, false);
      }
    }
  }

  /** How many events the scan from index `i` looks at. */
  function Inspected(evs: seq<Event>, i: nat, lo: int, hi: int, found: bool): (n: nat)
    requires i <= |evs|
    decreases |evs| - i
  {
    if i == |evs| then 0
    else if evs[i].Between(lo, hi) then 1 + Inspected(evs, i + 1, lo, hi, true)
    else if found then 1
    else 1 + Inspected(evs, i + 1, lo, hi, false)
  }

  /** Early exit: once an event at index `a` has matched, the scan looks at no
      event beyond the first later miss `b`. */
  lemma {:induction false} EarlyExit(evs: seq<Event>, lo: int, hi: int, a: nat, b: nat)
    requires a < b < |evs|
    requires evs[a].Between(lo, hi) && !evs[b].Between(lo, hi)
    ensures Inspected(evs, 0, lo, hi, false) <= b + 1
  {
    EarlyExitFrom(evs, 0, lo, hi, false, b);
  }

  lemma {:induction false} EarlyExitFrom(evs: seq<Event>, i: nat, lo: int, hi: int, found: bool, b: nat)
    requires i <= b < |evs| && !evs[b].Between(lo, hi)
    requires found || exists a :: i <= a < b && evs[a].Between(lo, hi)
    ensures Inspected(evs, i, lo, hi, found) <= b + 1 - i
    decreases b - i
  {
    if i < b {
      if evs[i].Between(lo, hi) {
        EarlyExitFrom(evs, i + 1, lo, hi, true, b);
      } else if !found {
        var a :| i <= a < b && evs[a].Between(lo, hi);
        assert a != i;
        EarlyExitFrom(evs, i + 1, lo, hi, false, b);
      }
    }
  }

  /** Every event from index `i` on that lies in [lo, hi), in order: what an
      exhaustive scan would fire. */
  function InWindow(evs: seq<Event>, i: nat, lo: int, hi: int): seq<Fired>
    requires i <= |evs|
    decreases |evs| - i
  {
    if i == |evs| then []
    else (if evs[i].Between(lo, hi) then [Fired(evs[i], evs[i].inFrames - lo)] else []) + InWindow(evs, i + 1, lo, hi)
  }

  lemma {:induction false} InWindowEmpty(evs: seq<Event>, i: nat, lo: int, hi: int)
    requires i <= |evs|
    requires forall j :: i <= j < |evs| ==> hi <= evs[j].inFrames
    ensures InWindow(evs, i, lo, hi) == []
    decreases |evs| - i
  {
    if i < |evs| {
      InWindowEmpty(evs, i + 1, lo, hi);
    }
  }

  lemma {:induction false} ScanAfterMatch(evs: seq<Event>, i: nat, lo: int, hi: int)
    requires i <= |evs| && SortedByFrame(evs)
    requires forall j :: i <= j < |evs| ==> lo <= evs[j].inFrames
    ensures Scan(evs, i, lo, hi, true) == InWindow(evs, i, lo, hi)
    decreases |evs| - i
  {
    if i < |evs| {
      if evs[i].Between(lo, hi) {
        ScanAfterMatch(evs, i + 1, lo, hi);
      } else {
        InWindowEmpty(evs, i, lo, hi);
      }
    }
  }

  lemma {:induction false} ScanBeforeMatch(evs: seq<Event>, i: nat, lo: int, hi: int)
    requires i <= |evs| && SortedByFrame(evs)
    ensures Scan(evs, i, lo, hi, false) == InWindow(evs, i, lo, hi)
    decreases |evs| - i
  {
    if i < |evs| {
      if evs[i].Between(lo, hi) {
        ScanAfterMatch(evs, i + 1, lo, hi);
      } else {
        ScanBeforeMatch(evs, i + 1, lo, hi);
      }
    }
  }

  /** On a buffer sorted by frame, which `prepare` with sorting guarantees, the
      early exit loses nothing: the scan fires every event in the window. */
  lemma ScanSortedComplete(evs: seq<Event>, lo: int, hi: int)
    requires SortedByFrame(evs)
    ensures Scan(evs, 0, lo, hi, false) == InWindow(evs, 0, lo, hi)
  {
    ScanBeforeMatch(evs, 0, lo, hi);
  }

  // ---------------------------------------------------------------------
  // The whole queue

  /** The total length of a run of buffers. */
  function SumLengths(bars: seq<Bar>): int
  {
    if bars == [] then 0 else bars[0].lengthInFrames + SumLengths(bars[1..])
  }

  lemma {:induction false} SumLengthsSnoc(bars: seq<Bar>, k: nat)
    requires k < |bars|
    ensures SumLengths(bars[..k + 1]) == SumLengths(bars[..k]) + bars[k].lengthInFrames
  {
    if k > 0 {
      SumLengthsSnoc(bars[1..], k - 1);
      assert bars[..k + 1][1..] == bars[1..][..k];
      assert bars[..k][1..] == bars[1..][..k - 1];
    }
  }

  /** The events fired from buffer `k` on when the callback window is
      [cursor, next): buffer `k` sees the window shifted back by `offset`, the
      total length of the buffers before it. */
  function Window(bars: seq<Bar>, k: nat, cursor: int, next: int, offset: int): (r: seq<Fired>)
    requires k <= |bars|
    decreases |bars| - k
  {
    if k == |bars| then []
    else Scan(bars[k].events, 0, cursor - offset, next - offset, false)
         + Window(bars, k + 1, cursor, next, offset + bars[k].lengthInFrames)
  }

  /** Every event a callback fires lies inside the callback: its offset
      relative to the callback's first frame is in [0, next - cursor). */
  lemma {:induction false} WindowWithinCallback(bars: seq<Bar>, k: nat, cursor: int, next: int, offset: int)
    requires k <= |bars|
    ensures forall f :: f in Window(bars, k, cursor, next, offset) ==> 0 <= f.relative < next - cursor
    decreases |bars| - k
  {
    if k < |bars| {
      var a := Scan(bars[k].events, 0, cursor - offset, next - offset, false);
      var b := Window(bars, k + 1, cursor, next, offset + bars[k].lengthInFrames);
      ScanSound(bars[k].events, 0, cursor - offset, next - offset, false);
      WindowWithinCallback(bars, k + 1, cursor, next, offset + bars[k].lengthInFrames);
      assert forall f :: f in a + b ==> f in a || f in b;
    }
  }

  /** Every event of the queue from buffer `k` on that lies in the callback
      window [cursor, next), each buffer seeing the window shifted back by the
      total length of the buffers before it: what an exhaustive dispatcher
      would fire. */
  function Due(bars: seq<Bar>, k: nat, cursor: int, next: int, offset: int): seq<Fired>
    requires k <= |bars|
    decreases |bars| - k
  {
    if k == |bars| then []
    else InWindow(bars[k].events, 0, cursor - offset, next - offset)
         + Due(bars, k + 1, cursor, next, offset + bars[k].lengthInFrames)
  }

  /** Every buffer of the queue is sorted by frame. */
  ghost predicate AllSortedByFrame(bars: seq<Bar>)
  {
    forall k :: 0 <= k < |bars| ==> SortedByFrame(bars[k].events)
  }

  /** On a queue of frame-sorted buffers the callback loses nothing to the
      early exit: it fires exactly the due events, buffer by buffer. */
  lemma {:induction false} WindowSortedComplete(bars: seq<Bar>, k: nat, cursor: int, next: int, offset: int)
    requires k <= |bars| && AllSortedByFrame(bars)
    ensures Window(bars, k, cursor, next, offset) == Due(bars, k, cursor, next, offset)
    decreases |bars| - k
  {
    if k < |bars| {
      ScanSortedComplete(bars[k].events, cursor - offset, next - offset);
      WindowSortedComplete(bars, k + 1, cursor, next, offset + bars[k].lengthInFrames);
    }
  }

  /** An event at index `j` that lies in [lo, hi) is among the in-window
      events from any index up to `j`. */
  lemma {:induction false} InWindowHas(evs: seq<Event>, i: nat, lo: int, hi: int, j: nat)
    requires i <= j < |evs| && evs[j].Between(lo, hi)
    ensures Fired(evs[j], evs[j].inFrames - lo) in InWindow(evs, i, lo, hi)
    decreases j - i
  {
    if i < j {
      InWindowHas(evs, i + 1, lo, hi, j);
    }
  }

  /** Completeness of one callback on a sorted queue: an event of buffer `k`
      whose frame, shifted by the lengths of the buffers before it, lies in
      [cursor, next) is fired, at its offset from the callback's first frame. */
  lemma WindowFiresEveryDue(bars: seq<Bar>, cursor: int, next: int, k: nat, j: nat)
    requires AllSortedByFrame(bars)
    requires k < |bars| && j < |bars[k].events|
    requires bars[k].events[j].Between(cursor - SumLengths(bars[..k]), next - SumLengths(bars[..k]))
    ensures Fired(bars[k].events[j], bars[k].events[j].inFrames - (cursor - SumLengths(bars[..k])))
              in Window(bars, 0, cursor, next, 0)
  {
    assert bars[0..k] == bars[..k];
    WindowFiresFrom(bars, 0, cursor, next, 0, k, j);
  }

  lemma {:induction false} WindowFiresFrom(bars: seq<Bar>, m: nat, cursor: int, next: int, offset: int, k: nat, j: nat)
    requires AllSortedByFrame(bars)
    requires m <= k < |bars| && j < |bars[k].events|
    requires bars[k].events[j].Between(cursor - (offset + SumLengths(bars[m..k])), next - (offset + SumLengths(bars[m..k])))
    ensures Fired(bars[k].events[j], bars[k].events[j].inFrames - (cursor - (offset + SumLengths(bars[m..k]))))
              in Window(bars, m, cursor, next, offset)
    decreases k - m
  {
    var rest := Window(bars, m + 1, cursor, next, offset + bars[m].lengthInFrames);
    if m == k {
      assert bars[m..k] == [];
      ScanFires(bars[k].events, cursor - offset, next - offset, j, rest);
    } else {
      var o := offset + bars[m].lengthInFrames;
      assert bars[m..k][1..] == bars[m + 1..k];
      assert offset + SumLengths(bars[m..k]) == o + SumLengths(bars[m + 1..k]);
      WindowFiresFrom(bars, m + 1, cursor, next, o, k, j);
      AppendKeeps(Scan(bars[m].events, 0, cursor - offset, next - offset, false), rest);
    }
  }

  /** On a sorted buffer an in-window event is fired by the scan, whatever
      follows it. */
  lemma ScanFires(evs: seq<Event>, lo: int, hi: int, j: nat, rest: seq<Fired>)
    requires SortedByFrame(evs) && j < |evs| && evs[j].Between(lo, hi)
    ensures Fired(evs[j], evs[j].inFrames - lo) in Scan(evs, 0, lo, hi, false) + rest
  {
    ScanSortedComplete(evs, lo, hi);
    InWindowHas(evs, 0, lo, hi, j);
  }

  lemma AppendKeeps(a: seq<Fired>, b: seq<Fired>)
    ensures forall f :: f in b ==> f in a + b
  {
    assert forall f :: f in b ==> f in a + b by {
      forall f | f in b ensures f in a + b {
        var n :| 0 <= n < |b| && b[n] == f;
        assert (a + b)[|a| + n] == f;
      }
    }
  }

  /** How many events each buffer's scan looks at, from buffer `k` on. */
  function InspectedCounts(bars: seq<Bar>, k: nat, cursor: int, next: int, offset: int): (r: seq<nat>)
    requires k <= |bars|
    ensures |r| == |bars| - k
    decreases |bars| - k
  {
    if k == |bars| then []
    else [Inspected(bars[k].events, 0, cursor - offset, next - offset, false)]
         + InspectedCounts(bars, k + 1, cursor, next, offset + bars[k].lengthInFrames)
  }

  /** One step of the queue walk: what buffer `k` fires, followed by the rest. */
  lemma WindowStep(bars: seq<Bar>, k: nat, cursor: int, next: int, offset: int, before: seq<Fired>)
    requires k < |bars|
    ensures before + Scan(bars[k].events, 0, cursor - offset, next - offset, false)
              + Window(bars, k + 1, cursor, next, offset + bars[k].lengthInFrames)
         == before + Window(bars, k, cursor, next, offset)
  {
  }

  lemma InspectedStep(bars: seq<Bar>, k: nat, cursor: int, next: int, offset: int, before: seq<nat>)
    requires k < |bars|
    ensures before + [Inspected(bars[k].events, 0, cursor - offset, next - offset, false)]
              + InspectedCounts(bars, k + 1, cursor, next, offset + bars[k].lengthInFrames)
         == before + InspectedCounts(bars, k, cursor, next, offset)
  {
  }

  /** The MIDI messages among fired events, in order, each at its relative
      offset. */
  function Messages(fired: seq<Fired>): (r: seq<MidiMessage>)
    ensures |r| <= |fired|
  {
    if fired == [] then []
    else (match fired[0].event.payload
          case Midi(port, data) => [MidiMessage(port, fired[0].relative, data)]
          case _ => [])
         + Messages(fired[1..])
  }

  lemma {:induction false} MessagesAppend(a: seq<Fired>, b: seq<Fired>)
    ensures Messages(a + b) == Messages(a) + Messages(b)
  {
    if a != [] {
      MessagesAppend(a[1..], b);
      assert (a + b)[0] == a[0];
      assert (a + b)[1..] == a[1..] + b;
    } else {
      assert a + b == b;
    }
  }

  lemma {:induction false} MessagesWithin(fired: seq<Fired>, nframes: int)
    requires forall j :: 0 <= j < |fired| ==> 0 <= fired[j].relative < nframes
    ensures forall j :: 0 <= j < |Messages(fired)| ==> 0 <= Messages(fired)[j].offset < nframes
  {
    if fired != [] {
      MessagesWithin(fired[1..], nframes);
    }
  }

  /** Every MIDI message a callback of `nframes` frames emits lies inside that
      callback: its relative offset is in [0, nframes). */
  lemma DispatchedWithinCallback(bars: seq<Bar>, cursor: int, nframes: int)
    ensures var sent := Messages(Window(bars, 0, cursor, cursor + nframes, 0));
      forall j :: 0 <= j < |sent| ==> 0 <= sent[j].offset < nframes
  {
    var w := Window(bars, 0, cursor, cursor + nframes, 0);
    WindowWithinCallback(bars, 0, cursor, cursor + nframes, 0);
    assert forall j :: 0 <= j < |w| ==> w[j] in w;
    MessagesWithin(w, nframes);
  }

  // ---------------------------------------------------------------------
  // Retirement

  /** How many front buffers the cursor has passed: each is popped while its
      length is strictly below the cursor, which drops by that length. */
  function Retired(bars: seq<Bar>, cursor: int): (n: nat)
    ensures n <= |bars|
  {
    if bars == [] || !(bars[0].lengthInFrames < cursor) then 0
    else 1 + Retired(bars[1..], cursor - bars[0].lengthInFrames)
  }

  /** Each retired buffer was shorter than the cursor as it stood when it was
      tested, and the first buffer kept failed that test. */
  lemma {:induction false} RetiredExactly(bars: seq<Bar>, cursor: int)
    ensures forall j :: 0 <= j < Retired(bars, cursor) ==>
      bars[j].lengthInFrames < cursor - SumLengths(bars[..j])
    ensures Retired(bars, cursor) < |bars| ==>
      cursor - SumLengths(bars[..Retired(bars, cursor)]) <= bars[Retired(bars, cursor)].lengthInFrames
  {
    if bars != [] && bars[0].lengthInFrames < cursor {
      var rest := bars[1..];
      var c := cursor - bars[0].lengthInFrames;
      RetiredExactly(rest, c);
      forall j | 0 <= j <= Retired(rest, c) && j < |rest|
        ensures SumLengths(bars[..j + 1]) == bars[0].lengthInFrames + SumLengths(rest[..j])
      {
        assert bars[..j + 1][1..] == rest[..j];
      }
    }
  }
}
