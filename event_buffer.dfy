/** One bar's worth of events (MetroEventBuffer): authored at fractional bar
    offsets, then prepared, which sorts them and resolves every offset into
    frames against the bar length. */
module EventBuffers {
  import opened MetroEvents
  import opened NoteInfo

  /** The answer of a frame-domain getter: refused until `Prepare` has run. */
  datatype FrameQuery = Ready(frames: int) | NotPrepared

  /** The jitter `noteOn` draws, from the humanize settings and the two values
      Math.random() returned. Offset and velocity jitter are `draw * size`;
      a range of size zero draws nothing and both deltas then default to the
      velocity minimum, the offset one included: `noteOn` initialises both
      deltas from `humanizeVelocity_min` and overwrites one only when its
      range is non-empty, where its `=+` is a plain assignment of
      `draw * size`. */
  function HumanizeDelta(offsetSize: real, velocityMin: real, velocitySize: real,
                         offsetDraw: real, velocityDraw: real): (d: Delta)
    requires 0.0 <= offsetDraw < 1.0 && 0.0 <= velocityDraw < 1.0
    ensures offsetSize == 0.0 ==> d.offset == velocityMin
    ensures offsetSize > 0.0 ==> 0.0 <= d.offset < offsetSize
    ensures offsetSize < 0.0 ==> offsetSize < d.offset <= 0.0
    ensures velocitySize == 0.0 ==> d.velocity == velocityMin
    ensures velocitySize > 0.0 ==> 0.0 <= d.velocity < velocitySize
    ensures velocitySize < 0.0 ==> velocitySize < d.velocity <= 0.0
  {
    Delta(Jitter(offsetDraw, offsetSize, velocityMin), Jitter(velocityDraw, velocitySize, velocityMin))
  }

  /** `draw * size`, or `default` when the range is empty. */
  function Jitter(draw: real, size: real, default: real): (j: real)
    requires 0.0 <= draw < 1.0
    ensures size == 0.0 ==> j == default
    ensures size > 0.0 ==> 0.0 <= j < size
    ensures size < 0.0 ==> size < j <= 0.0
  {
    var scaled := draw * size;
    DrawInRange(draw, size, scaled);
    if size != 0.0 then scaled else default
  }

  lemma DrawInRange(draw: real, size: real, scaled: real)
    requires 0.0 <= draw < 1.0 && scaled == draw * size
    ensures size > 0.0 ==> 0.0 <= scaled < size
    ensures size < 0.0 ==> size < scaled <= 0.0
  {
    if size > 0.0 {
      NonNegativeProduct(draw, size);
      PositiveProduct(1.0 - draw, size);
      assert size - draw * size == (1.0 - draw) * size;
    } else if size < 0.0 {
      var p := draw * -size;
      assert p >= 0.0 by { NonNegativeProduct(draw, -size); }
      assert draw * size == -p;
      PositiveProduct(1.0 - draw, -size);
      assert (1.0 - draw) * -size == -size - p;
    }
  }

  /** With every humanize setting at its default of zero, `noteOn` adds no
      jitter whatever the draws. */
  lemma NoJitterByDefault(offsetDraw: real, velocityDraw: real)
    requires 0.0 <= offsetDraw < 1.0 && 0.0 <= velocityDraw < 1.0
    ensures HumanizeDelta(0.0, 0.0, 0.0, offsetDraw, velocityDraw) == ZERO
  {
  }

  /** A negative note duration, the -1 of the five-argument `noteHit` among
      them, becomes 0.0025 of a bar. */
  function EffectiveDuration(duration: real): (d: real)
    ensures d >= 0.0
    ensures duration >= 0.0 ==> d == duration
  {
    if duration < 0.0 then 0.0025 else duration
  }

  class EventBuffer {
    var humanizeOffsetMin: real
    var humanizeOffsetMax: real
    var humanizeOffsetSize: real
    var humanizeVelocityMin: real
    var humanizeVelocityMax: real
    var humanizeVelocitySize: real

    /** The buffer's length in bars. */
    var length: real
    var prepared: bool
    var barLengthInFrames: int
    var lengthInFrames: int
    var list: seq<Event>
    const noteInfoMap: NoteInfoMap

    constructor ()
      ensures list == [] && !prepared && length == 1.0
      ensures barLengthInFrames == -1 && lengthInFrames == -1
      ensures humanizeOffsetMin == humanizeOffsetMax == humanizeOffsetSize == 0.0
      ensures humanizeVelocityMin == humanizeVelocityMax == humanizeVelocitySize == 0.0
      ensures fresh(noteInfoMap) && noteInfoMap.entries == map[]
    {
      humanizeOffsetMin, humanizeOffsetMax, humanizeOffsetSize := 0.0, 0.0, 0.0;
      humanizeVelocityMin, humanizeVelocityMax, humanizeVelocitySize := 0.0, 0.0, 0.0;
      length := 1.0;
      prepared := false;
      barLengthInFrames, lengthInFrames := -1, -1;
      list := [];
      noteInfoMap := new NoteInfoMap();
    }

    method SetHumanizeOffset(min: real, max: real)
      modifies this`humanizeOffsetMin, this`humanizeOffsetMax, this`humanizeOffsetSize
      ensures humanizeOffsetMin == min && humanizeOffsetMax == max
      ensures humanizeOffsetSize == max - min
    {
      humanizeOffsetMin := min;
      humanizeOffsetMax := max;
      humanizeOffsetSize := humanizeOffsetMax - humanizeOffsetMin;
    }

    method SetHumanizeVelocity(min: real, max: real)
      modifies this`humanizeVelocityMin, this`humanizeVelocityMax, this`humanizeVelocitySize
      ensures humanizeVelocityMin == min && humanizeVelocityMax == max
      ensures humanizeVelocitySize == max - min
    {
      humanizeVelocityMin := min;
      humanizeVelocityMax := max;
      humanizeVelocitySize := humanizeVelocityMax - humanizeVelocityMin;
    }

    method GetLength() returns (l: real)
      ensures l == length
    {
      l := length;
    }

    method SetLength(l: real)
      modifies this`length
      ensures length == l
    {
      length := l;
    }

    /** The largest bar offset of any event, and never less than zero. */
    method GetActualLength() returns (max: real)
      ensures 0.0 <= max
      ensures forall i :: 0 <= i < |list| ==> list[i].barOffset <= max
      ensures max == 0.0 || exists i :: 0 <= i < |list| && list[i].barOffset == max
    {
      max := 0.0;
      var i := 0;
      while i < |list|
        invariant 0 <= i <= |list|
        invariant 0.0 <= max
        invariant forall j :: 0 <= j < i ==> list[j].barOffset <= max
        invariant max == 0.0 || exists j :: 0 <= j < i && list[j].barOffset == max
      {
        if max < list[i].barOffset {
          max := list[i].barOffset;
        }
        i := i + 1;
      }
    }

    method GetBarLengthInFrames() returns (q: FrameQuery)
      ensures q.Ready? <==> prepared
      ensures q.Ready? ==> q.frames == barLengthInFrames
    {
      if !prepared {
        q := NotPrepared;
      } else {
        q := Ready(barLengthInFrames);
      }
    }

    method GetLengthInFrames() returns (q: FrameQuery)
      ensures q.Ready? <==> prepared
      ensures q.Ready? ==> q.frames == lengthInFrames
    {
      if !prepared {
        q := NotPrepared;
      } else {
        q := Ready(lengthInFrames);
      }
    }

    /** Sorts the events when asked to, then resolves them against a bar of
        `barInFrames` frames. */
    method Prepare(barInFrames: int, doSort: bool, tieBreak: (Event, Event) -> int)
      modifies this`list, this`barLengthInFrames, this`lengthInFrames, this`prepared
      ensures list == ResolveAll(if doSort then SortEvents(old(list), tieBreak) else old(list), barInFrames)
      ensures prepared && barLengthInFrames == barInFrames
      ensures lengthInFrames == Trunc(length * barInFrames as real)
      ensures doSort ==> multiset(SortEvents(old(list), tieBreak)) == multiset(old(list))
      ensures doSort ==> SortedByBarOffset(list)
      ensures doSort && barInFrames >= 0 ==> SortedByFrame(list)
    {
      if doSort {
        list := SortEvents(list, tieBreak);
        SortEventsCorrect(old(list), tieBreak);
      }
      CalcInFrames(barInFrames);
      if doSort && barInFrames >= 0 {
        ResolvePreservesOrder(SortEvents(old(list), tieBreak), barInFrames);
      }
    }

    method CalcInFrames(barInFrames: int)
      modifies this`list, this`barLengthInFrames, this`lengthInFrames, this`prepared
      ensures list == ResolveAll(old(list), barInFrames)
      ensures prepared && barLengthInFrames == barInFrames
      ensures lengthInFrames == Trunc(length * barInFrames as real)
    {
      var i := 0;
      while i < |list|
        invariant 0 <= i <= |list| == |old(list)|
        invariant forall j :: 0 <= j < i ==> list[j] == Resolved(old(list)[j], barInFrames)
        invariant forall j :: i <= j < |list| ==> list[j] == old(list)[j]
      {
        list := list[i := Resolved(list[i], barInFrames)];
        i := i + 1;
      }
      barLengthInFrames := barInFrames;
      lengthInFrames := Trunc(length * barInFrames as real);
      prepared := true;
    }

    method Size() returns (n: nat)
      ensures n == |list|
    {
      n := |list|;
    }

    // Authoring: each call appends exactly one event at the tail.

    method AddEvent(e: Event)
      modifies this`list
      ensures list == old(list) + [e]
    {
      list := list + [e];
    }

    method MidiEvent(offset: real, outputPortNo: int, data: seq<byte>)
      modifies this`list
      ensures list == old(list) + [NoteEvent(offset, outputPortNo, data)]
    {
      list := list + [NoteEvent(offset, outputPortNo, data)];
    }

    method Exec(offset: real, action: nat)
      modifies this`list
      ensures list == old(list) + [Event(offset, 0, Procedure(action))]
    {
      list := list + [Event(offset, 0, Procedure(action))];
    }

    /** The offset is deliberately not range-checked; the velocity is clamped
        inside the encoding. */
    method Note(outputPortNo: int, midiEventValue: int, offset: real, channel: int, note: int, velocity: real)
      modifies this`list
      ensures list == old(list) + [NoteEvent(offset, outputPortNo, NoteData(midiEventValue, channel, note, velocity))]
    {
      list := list + [NoteEvent(offset, outputPortNo, NoteData(midiEventValue, channel, note, velocity))];
    }

    method NoteOn(offset: real, outputPortNo: int, channel: int, note: int, velocity: real,
                  offsetDraw: real, velocityDraw: real)
      requires 0.0 <= offsetDraw < 1.0 && 0.0 <= velocityDraw < 1.0
      modifies this`list, noteInfoMap
      ensures var d := HumanizeDelta(humanizeOffsetSize, humanizeVelocityMin, humanizeVelocitySize, offsetDraw, velocityDraw);
        && noteInfoMap.entries == old(noteInfoMap.entries)[NoteKey(outputPortNo, channel, note) := d]
        && list == old(list) + [NoteEvent(offset + d.offset, outputPortNo,
                                          NoteData(NOTE_ON, channel, note, velocity + d.velocity))]
    {
      var humanizeOffset := humanizeVelocityMin;
      var humanizeVelocity := humanizeVelocityMin;
      if humanizeOffsetSize != 0.0 {
        humanizeOffset := offsetDraw * humanizeOffsetSize;
      }
      if humanizeVelocitySize != 0.0 {
        humanizeVelocity := velocityDraw * humanizeVelocitySize;
      }
      assert Delta(humanizeOffset, humanizeVelocity)
          == HumanizeDelta(humanizeOffsetSize, humanizeVelocityMin, humanizeVelocitySize, offsetDraw, velocityDraw);
      noteInfoMap.Put(outputPortNo, channel, note, humanizeOffset, humanizeVelocity);
      Note(outputPortNo, NOTE_ON, offset + humanizeOffset, channel, note, velocity + humanizeVelocity);
    }

    /** Applies the delta the latest note-on of the same key stored, or none. */
    method NoteOff(offset: real, outputPortNo: int, channel: int, note: int, velocity: real)
      modifies this`list
      ensures var d := Lookup(noteInfoMap.entries, NoteKey(outputPortNo, channel, note));
        list == old(list) + [NoteEvent(offset + d.offset, outputPortNo,
                                       NoteData(NOTE_OFF, channel, note, velocity + d.velocity))]
    {
      var value := noteInfoMap.Get(outputPortNo, channel, note);
      Note(outputPortNo, NOTE_OFF, offset + value.offset, channel, note, velocity + value.velocity);
    }

    /** A note-on at `offset` and its note-off `duration` later, both shifted
        by the same jitter. */
    method NoteHit(offset: real, outputPortNo: int, channel: int, note: int, velocity: real, duration: real,
                   offsetDraw: real, velocityDraw: real)
      requires 0.0 <= offsetDraw < 1.0 && 0.0 <= velocityDraw < 1.0
      modifies this`list, noteInfoMap
      ensures var d := HumanizeDelta(humanizeOffsetSize, humanizeVelocityMin, humanizeVelocitySize, offsetDraw, velocityDraw);
        && noteInfoMap.entries == old(noteInfoMap.entries)[NoteKey(outputPortNo, channel, note) := d]
        && list == old(list) + [
             NoteEvent(offset + d.offset, outputPortNo, NoteData(NOTE_ON, channel, note, velocity + d.velocity)),
             NoteEvent(offset + EffectiveDuration(duration) + d.offset, outputPortNo,
                       NoteData(NOTE_OFF, channel, note, velocity + d.velocity))]
    {
      var dur := duration;
      if dur < 0.0 {
        dur := 0.0025;
      }
      NoteOn(offset, outputPortNo, channel, note, velocity, offsetDraw, velocityDraw);
      NoteOff(offset + dur, outputPortNo, channel, note, velocity);
    }

    /** The five-argument overload: the default duration. */
    method NoteHitDefault(offset: real, outputPortNo: int, channel: int, note: int, velocity: real,
                          offsetDraw: real, velocityDraw: real)
      requires 0.0 <= offsetDraw < 1.0 && 0.0 <= velocityDraw < 1.0
      modifies this`list, noteInfoMap
      ensures var d := HumanizeDelta(humanizeOffsetSize, humanizeVelocityMin, humanizeVelocitySize, offsetDraw, velocityDraw);
        && noteInfoMap.entries == old(noteInfoMap.entries)[NoteKey(outputPortNo, channel, note) := d]
        && list == old(list) + [
             NoteEvent(offset + d.offset, outputPortNo, NoteData(NOTE_ON, channel, note, velocity + d.velocity)),
             NoteEvent(offset + 0.0025 + d.offset, outputPortNo, NoteData(NOTE_OFF, channel, note, velocity + d.velocity))]
    {
      NoteHit(offset, outputPortNo, channel, note, velocity, -1.0, offsetDraw, velocityDraw);
    }
  }
}
