/** Concrete scenarios the scheduler is meant to satisfy, proved on the
    model: a sort by bar offset, a windowed dispatch across two callbacks,
    and the two sync formulas. */
module Scenarios {
  import opened MetroEvents
  import opened Dispatch
  import opened EventBuffers
  import opened Sequences
  import opened Wrappers

  /** Events authored at 0.8, 0.1 and 0.5 of a 48000-frame bar come out of a
      sorting `prepare` at frames 4800, 24000 and 38400, in that order. */
  lemma SortedPrepareExample(tieBreak: (Event, Event) -> int)
    ensures var r := ResolveAll(SortEvents([Event(0.8, 0, Procedure(0)), Event(0.1, 0, Procedure(1)),
                                            Event(0.5, 0, Procedure(2))], tieBreak), 48000);
      |r| == 3 && r[0].inFrames == 4800 && r[1].inFrames == 24000 && r[2].inFrames == 38400
  {
    var a, b, c := Event(0.8, 0, Procedure(0)), Event(0.1, 0, Procedure(1)), Event(0.5, 0, Procedure(2));
    assert Insert(c, [], tieBreak) == [c];
    assert Insert(b, [c], tieBreak) == [b, c];
    assert Insert(a, [c], tieBreak) == [c] + Insert(a, [], tieBreak);
    assert Insert(a, [b, c], tieBreak) == [b] + Insert(a, [c], tieBreak);
    assert SortEvents([c], tieBreak) == [c];
    assert [b, c][1..] == [c];
    assert [a, b, c][1..] == [b, c];
    assert SortEvents([b, c], tieBreak) == [b, c];
    assert SortEvents([a, b, c], tieBreak) == [b, c, a];
    assert Trunc(0.1 * 48000.0) == 4800;
    assert Trunc(0.5 * 48000.0) == 24000;
    assert Trunc(0.8 * 48000.0) == 38400;
  }

  /** A note resolved to frame 24000 of a 48000-frame bar fires in the
      512-frame callback starting at 23800, 200 frames into it, and not in
      the next callback. */
  lemma WindowedDispatchExample(port: int, data: seq<byte>)
    ensures var e := Resolved(NoteEvent(0.5, port, data), 48000);
      var bars := [Bar([e], 48000)];
      && Messages(Window(bars, 0, 23800, 23800 + 512, 0)) == [MidiMessage(port, 200, data)]
      && Messages(Window(bars, 0, 24312, 24312 + 512, 0)) == []
  {
    var e := Resolved(NoteEvent(0.5, port, data), 48000);
    assert Trunc(0.5 * 48000.0) == 24000;
    var bars := [Bar([e], 48000)];
    assert Window(bars, 1, 23800, 24312, 48000) == [];
    assert Scan([e], 1, 23800, 24312, true) == [];
    assert Window(bars, 0, 23800, 24312, 0) == [Fired(e, 200)];
    assert Messages([Fired(e, 200)]) == [MidiMessage(port, 200, data)] + Messages([]);
    assert Window(bars, 1, 24312, 24824, 48000) == [];
    assert Scan([e], 1, 24312, 24824, false) == [];
    assert Window(bars, 0, 24312, 24824, 0) == [];
  }

  /** A follower of a track at cursor 1000 whose front buffer is 48000 frames
      long, with no sync offset, starts at -47000 when serial and at 1000
      when parallel. */
  lemma SyncFormulaExample()
    ensures SyncStart(Serial, Target(1000, Some(Ready(48000))), OffsetFrames(0.0, 48000)) == Start(-47000)
    ensures SyncStart(Parallel, Target(1000, Some(Ready(48000))), OffsetFrames(0.0, 48000)) == Start(1000)
  {
  }
}
