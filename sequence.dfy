/** A track (MetroNoteEventBufferSequence): a cursor in frames, a FIFO of
    prepared buffers, and a sync relation to another track that fixes where
    its cursor starts. */
module Sequences {
  import opened MetroEvents
  import opened EventBuffers
  import opened Dispatch
  import opened Wrappers

  datatype SyncType = Immediate | Parallel | Serial

  /** The queue depth the prefetcher keeps. */
  const BUFFER_SIZE: nat := 2

  /** What `prepare` can see of its sync target: nothing, or the target's
      cursor and the answer of its front buffer's length getter (None when
      the target's queue is empty). */
  datatype TargetView = NoTarget | Target(cursor: int, front: Option<FrameQuery>)

  /** The outcome of `prepare`: a start cursor, or the failure the serial
      case runs into when the target has no usable front buffer. */
  datatype Start = Start(cursor: int) | NoFrontBuffer | FrontNotPrepared

  /** What `checkBuffer` did. */
  datatype Refill = Full | Enqueued | Unregistered

  /** `(int)(-1.0 * syncOffset * barInFrames)`: the sync offset, in bars, as a
      frame count to start before (positive offset) or after the reference. */
  function OffsetFrames(syncOffset: real, barInFrames: int): (f: int)
    ensures syncOffset >= 0.0 && barInFrames >= 0 ==> f <= 0
    ensures syncOffset == 0.0 ==> f == 0
  {
    NonNegativeScale(syncOffset, barInFrames as real);
    Trunc(-1.0 * syncOffset * barInFrames as real)
  }

  lemma NonNegativeScale(x: real, k: real)
    ensures x >= 0.0 && k >= 0.0 ==> -1.0 * x * k <= 0.0
  {
    if x >= 0.0 && k >= 0.0 {
      assert x * k >= 0.0;
    }
  }

  /** The start cursor the sync policy gives, for a sync offset of `offset`
      frames. IMMEDIATE ignores any target; PARALLEL and SERIAL without a
      target fall back to it. PARALLEL takes the target's clock; SERIAL
      starts where the target's front buffer ends. */
  function SyncStart(syncType: SyncType, target: TargetView, offset: int): (s: Start)
    ensures syncType == Immediate || target.NoTarget? ==> s == Start(offset)
    ensures syncType == Parallel && target.Target? ==> s == Start(target.cursor + offset)
    ensures syncType == Serial && target.Target? && target.front == None ==> s == NoFrontBuffer
    ensures syncType == Serial && target.Target? && target.front == Some(NotPrepared) ==> s == FrontNotPrepared
    ensures syncType == Serial && target.Target? && target.front.Some? && target.front.value.Ready? ==>
      s == Start(target.cursor - target.front.value.frames + offset)
  {
    match syncType
    case Immediate => Start(offset)
    case Parallel => if target.NoTarget? then Start(offset) else Start(target.cursor + offset)
    case Serial =>
      if target.NoTarget? then Start(offset)
      else match target.front
        case None => NoFrontBuffer
        case Some(NotPrepared) => FrontNotPrepared
        case Some(Ready(n)) => Start(target.cursor - n + offset)
  }

  /** A serial follower starts exactly one front-buffer length before where a
      parallel follower of the same target would. */
  lemma SerialTrailsParallel(c: int, n: int, offset: int)
    ensures SyncStart(Serial, Target(c, Some(Ready(n))), offset).cursor
         == SyncStart(Parallel, Target(c, Some(Ready(n))), offset).cursor - n
  {
  }

  /** The view of a buffer's length getter. */
  ghost function FrontQuery(b: EventBuffer): (q: FrameQuery)
    reads b
  {
    if b.prepared then Ready(b.lengthInFrames) else NotPrepared
  }

  ghost function BarsOf(bs: seq<EventBuffer>): (r: seq<Bar>)
    reads bs
    ensures |r| == |bs|
    ensures forall i :: 0 <= i < |bs| ==> r[i] == Bar(bs[i].list, bs[i].lengthInFrames)
  {
    seq(|bs|, i reads bs requires 0 <= i < |bs| => Bar(bs[i].list, bs[i].lengthInFrames))
  }

  /** `b` holds `before` sorted and resolved against a bar of `bar` frames,
      with its length in frames recomputed as `(int)(length * bar)`. */
  ghost predicate Reprepared(b: EventBuffer, before: seq<Event>, bar: int, tieBreak: (Event, Event) -> int)
    reads b
  {
    && b.list == ResolveAll(SortEvents(before, tieBreak), bar)
    && b.barLengthInFrames == bar
    && b.lengthInFrames == Trunc(b.length * bar as real)
    && (bar >= 0 ==> SortedByFrame(b.list))
  }

  /** `b` still has the length in bars and the humanize settings it had in
      the earlier state. */
  twostate predicate SettingsKept(b: EventBuffer)
    reads b
  {
    && b.length == old(b.length)
    && b.humanizeOffsetSize == old(b.humanizeOffsetSize)
    && b.humanizeVelocityMin == old(b.humanizeVelocityMin)
    && b.humanizeVelocitySize == old(b.humanizeVelocitySize)
  }

  /** The scan of one buffer in `progressCursor`: fires what lies in
      [lo, hi) of the buffer's own frames and stops at the first miss after a
      match. MIDI events become messages at their offset from `lo`. */
  method FireBuffer(evs: seq<Event>, lo: int, hi: int)
    returns (msgs: seq<MidiMessage>, ghost got: seq<Fired>, ghost looked: nat)
    ensures got == Scan(evs, 0, lo, hi, false)
    ensures looked == Inspected(evs, 0, lo, hi, false)
    ensures msgs == Messages(Scan(evs, 0, lo, hi, false))
  {
    msgs, got, looked := [], [], 0;
    var found := false;
    var i := 0;
    while i < |evs|
      invariant 0 <= i <= |evs|
      invariant got + Scan(evs, i, lo, hi, found) == Scan(evs, 0, lo, hi, false)
      invariant looked + Inspected(evs, i, lo, hi, found) == Inspected(evs, 0, lo, hi, false)
      invariant msgs == Messages(got)
    {
      var e := evs[i];
      looked := looked + 1;
      if e.Between(lo, hi) {
        found := true;
        var f := Fired(e, e.inFrames - lo);
        assert Scan(evs, i, lo, hi, found) == [f] + Scan(evs, i + 1, lo, hi, true);
        assert got + [f] + Scan(evs, i + 1, lo, hi, true) == got + ([f] + Scan(evs, i + 1, lo, hi, true));
        MessagesAppend(got, [f]);
        match e.payload {
          case Midi(port, data) =>
            msgs := msgs + [MidiMessage(port, e.inFrames - lo, data)];
          case Procedure(_) =>
            // run by the collaborator, synchronously
          case Other(_) =>
            // logged as an unknown event class
        }
        got := got + [f];
      } else if found {
        break;
      } else {
        assert Scan(evs, i, lo, hi, false) == Scan(evs, i + 1, lo, hi, false);
      }
      i := i + 1;
    }
  }

  /** `prepare` of one buffer with sorting, stated through Reprepared. */
  method PrepareSorted(b: EventBuffer, bar: int, tieBreak: (Event, Event) -> int)
    modifies b`list, b`barLengthInFrames, b`lengthInFrames, b`prepared
    ensures b.prepared && Reprepared(b, old(b.list), bar, tieBreak)
  {
    ghost var before := b.list;
    b.Prepare(bar, true, tieBreak);
    assert b.list == ResolveAll(SortEvents(before, tieBreak), bar);
    assert bar >= 0 ==> SortedByFrame(b.list);
  }

  /** The first half of `progressCursor`: every queued buffer scanned for
      the window [cursor, next), each with the window shifted back by the
      lengths of the buffers before it. */
  method FireQueue(queue: seq<EventBuffer>, cursor: int, next: int)
    returns (result: seq<MidiMessage>, ghost fired: seq<Fired>, ghost inspected: seq<nat>)
    ensures fired == Window(BarsOf(queue), 0, cursor, next, 0)
    ensures inspected == InspectedCounts(BarsOf(queue), 0, cursor, next, 0)
    ensures result == Messages(Window(BarsOf(queue), 0, cursor, next, 0))
    ensures QueueValid(queue) && (forall i :: 0 <= i < |queue| ==> queue[i].barLengthInFrames >= 0) ==>
      fired == Due(BarsOf(queue), 0, cursor, next, 0)
  {
    ghost var bars := BarsOf(queue);
    var cursorOffset := 0;
    result, fired, inspected := [], [], [];
    var k := 0;
    while k < |queue|
      invariant 0 <= k <= |queue| == |bars|
      invariant cursorOffset == SumLengths(bars[..k])
      invariant fired + Window(bars, k, cursor, next, cursorOffset) == Window(bars, 0, cursor, next, 0)
      invariant inspected + InspectedCounts(bars, k, cursor, next, cursorOffset)
             == InspectedCounts(bars, 0, cursor, next, 0)
      invariant result == Messages(fired)
    {
      var buf := queue[k];
      assert bars[k] == Bar(buf.list, buf.lengthInFrames);
      var msgs, got, looked := FireBuffer(buf.list, cursor - cursorOffset, next - cursorOffset);
      MessagesAppend(fired, got);
      WindowStep(bars, k, cursor, next, cursorOffset, fired);
      InspectedStep(bars, k, cursor, next, cursorOffset, inspected);
      result := result + msgs;
      fired := fired + got;
      inspected := inspected + [looked];
      SumLengthsSnoc(bars, k);
      cursorOffset := cursorOffset + buf.lengthInFrames;
      k := k + 1;
    }
    if QueueValid(queue) && forall i :: 0 <= i < |queue| ==> queue[i].barLengthInFrames >= 0 {
      QueueComplete(queue, cursor, next);
    }
  }

  /** The second half of `progressCursor`: pops front buffers while their
      length is below the cursor, taking that length off both cursors; each
      pop is one slot-freed notification to the scheduler. */
  method RetireQueue(queue: seq<EventBuffer>, cursor: int, next: int)
    returns (rest: seq<EventBuffer>, cursor': int, next': int, ghost retired: nat)
    ensures retired == Retired(BarsOf(queue), cursor)
    ensures rest == queue[Retired(BarsOf(queue), cursor)..]
    ensures cursor' == cursor - SumLengths(BarsOf(queue)[..Retired(BarsOf(queue), cursor)])
    ensures next' == next - SumLengths(BarsOf(queue)[..Retired(BarsOf(queue), cursor)])
  {
    ghost var bars := BarsOf(queue);
    rest, cursor', next', retired := queue, cursor, next, 0;
    assert bars[..0] == [];
    while true
      invariant 0 <= retired <= |bars|
      invariant rest == queue[retired..]
      invariant cursor' == cursor - SumLengths(bars[..retired])
      invariant next' == next - SumLengths(bars[..retired])
      invariant Retired(bars, cursor) == retired + Retired(bars[retired..], cursor')
      decreases |rest|
    {
      if |rest| == 0 {
        break;
      }
      var lengthInFrames := rest[0].lengthInFrames;
      assert bars[retired] == Bar(rest[0].list, lengthInFrames);
      if lengthInFrames < cursor' {
        assert bars[retired..][1..] == bars[retired + 1..];
        SumLengthsSnoc(bars, retired);
        cursor' := cursor' - lengthInFrames;
        next' := next' - lengthInFrames;
        rest := rest[1..];
        retired := retired + 1;
      } else {
        break;
      }
    }
  }

  /** The queue invariant of a track (see `NoteEventBufferSequence.Valid`). */
  ghost predicate QueueValid(bs: seq<EventBuffer>)
    reads bs
  {
    && |bs| <= BUFFER_SIZE
    && (forall i :: 0 <= i < |bs| ==> bs[i].prepared)
    && (forall i, j :: 0 <= i < j < |bs| ==> bs[i] != bs[j])
    && (forall i :: 0 <= i < |bs| ==> bs[i].barLengthInFrames >= 0 ==> SortedByFrame(bs[i].list))
  }

  /** Popping front buffers keeps the queue invariant. */
  lemma QueueValidSuffix(bs: seq<EventBuffer>, r: nat)
    requires QueueValid(bs) && r <= |bs|
    ensures QueueValid(bs[r..])
  {
    assert forall i :: 0 <= i < |bs| - r ==> bs[r..][i] == bs[i + r];
  }

  /** On a valid queue whose buffers were all resolved against non-negative
      bars, one callback fires exactly the due events. */
  lemma QueueComplete(bs: seq<EventBuffer>, cursor: int, next: int)
    requires QueueValid(bs)
    requires forall i :: 0 <= i < |bs| ==> bs[i].barLengthInFrames >= 0
    ensures Window(BarsOf(bs), 0, cursor, next, 0) == Due(BarsOf(bs), 0, cursor, next, 0)
  {
    assert AllSortedByFrame(BarsOf(bs));
    WindowSortedComplete(BarsOf(bs), 0, cursor, next, 0);
  }

  /** The loop of `reprepare`: every buffer of a valid queue prepared again,
      sorted, against a bar of `bar` frames. */
  method ReprepareQueue(bs: seq<EventBuffer>, bar: int, tieBreak: (Event, Event) -> int)
    requires QueueValid(bs)
    modifies bs`list, bs`barLengthInFrames, bs`lengthInFrames, bs`prepared
    ensures QueueValid(bs)
    ensures forall i :: 0 <= i < |bs| ==> Reprepared(bs[i], old(bs[i].list), bar, tieBreak)
    ensures forall i :: 0 <= i < |bs| ==> SettingsKept(bs[i])
  {
    var i := 0;
    while i < |bs|
      invariant 0 <= i <= |bs|
      invariant forall j :: 0 <= j < |bs| ==> bs[j].prepared
      invariant forall j :: 0 <= j < |bs| ==> bs[j].barLengthInFrames >= 0 ==> SortedByFrame(bs[j].list)
      invariant forall j :: 0 <= j < i ==> Reprepared(bs[j], old(bs[j].list), bar, tieBreak)
      invariant forall j :: i <= j < |bs| ==> bs[j].list == old(bs[j].list)
      invariant forall j :: 0 <= j < |bs| ==> SettingsKept(bs[j])
    {
      PrepareSorted(bs[i], bar, tieBreak);
      i := i + 1;
    }
  }

  class NoteEventBufferSequence {
    const name: string
    /** The generator that fills this track's buffers, by identity. */
    const logic: nat
    const syncType: SyncType
    const syncSequence: NoteEventBufferSequence?
    const syncOffset: real
    var buffers: seq<EventBuffer>
    var cursor: int

    /** Every queued buffer is prepared and queued once, the queue is never
        deeper than BUFFER_SIZE, and every buffer resolved against a
        non-negative bar is sorted by frame (as `prepare` with sorting leaves
        it), which the dispatcher's early exit relies on. */
    ghost predicate Valid()
      reads this, buffers
    {
      QueueValid(buffers)
    }

    ghost function Bars(): seq<Bar>
      reads this, buffers
    {
      BarsOf(buffers)
    }

    /** Every queued buffer was resolved against a non-negative bar, as the
        audio server's bar lengths always are. */
    ghost predicate ForwardBars()
      reads this, buffers
    {
      forall i :: 0 <= i < |buffers| ==> buffers[i].barLengthInFrames >= 0
    }

    constructor (name: string, logic: nat, syncType: SyncType, syncSequence: NoteEventBufferSequence?, syncOffset: real)
      ensures Valid()
      ensures this.name == name && this.logic == logic && this.syncType == syncType
      ensures this.syncSequence == syncSequence && this.syncOffset == syncOffset
      ensures buffers == [] && cursor == 0
    {
      this.name := name;
      this.logic := logic;
      this.syncType := syncType;
      this.syncSequence := syncSequence;
      this.syncOffset := syncOffset;
      buffers := [];
      cursor := 0;
    }

    /** The handle's `spawn`: a new track with the given name, offset and
        generator, synced to this one by this one's sync type. Registering it
        with the scheduler is left to the caller. */
    method Spawn(name: string, offset: real, logic: nat) returns (child: NoteEventBufferSequence)
      ensures fresh(child) && child.Valid()
      ensures child.name == name && child.logic == logic && child.syncOffset == offset
      ensures child.syncType == syncType && child.syncSequence == this
      ensures child.buffers == [] && child.cursor == 0
    {
      child := new NoteEventBufferSequence(name, logic, syncType, this, offset);
    }

    /** One audio callback of `nframes` frames: fires the events of every
        queued buffer that fall in the window, retires the buffers the cursor
        has passed, and advances the cursor. `fired` are the events reached
        (MIDI ones become `result`, procedures run, others are logged),
        `inspected` how many events each buffer's scan looked at, and
        `retired` how many buffers were popped (one slot-freed notification
        each). When every buffer was resolved against a non-negative bar,
        the early exit loses nothing: `fired` is every due event. */
    method ProgressCursor(nframes: int)
      returns (result: seq<MidiMessage>, ghost fired: seq<Fired>, ghost inspected: seq<nat>, ghost retired: nat)
      requires Valid()
      modifies this
      ensures Valid()
      ensures fired == Window(old(Bars()), 0, old(cursor), old(cursor) + nframes, 0)
      ensures result == Messages(fired)
      ensures inspected == InspectedCounts(old(Bars()), 0, old(cursor), old(cursor) + nframes, 0)
      ensures retired == Retired(old(Bars()), old(cursor))
      ensures buffers == old(buffers)[retired..]
      ensures cursor == old(cursor) + nframes - SumLengths(old(Bars())[..retired])
      ensures old(ForwardBars()) ==> fired == Due(old(Bars()), 0, old(cursor), old(cursor) + nframes, 0)
    {
      var nextCursor := cursor + nframes;
      result, fired, inspected := FireQueue(buffers, cursor, nextCursor);
      var queue, c;
      queue, c, nextCursor, retired := RetireQueue(buffers, cursor, nextCursor);
      QueueValidSuffix(buffers, retired);
      buffers := queue;
      cursor := nextCursor;
    }

    /** Sets the start cursor from the sync policy; on the serial path a
        target without a usable front buffer makes it fail and leaves the
        cursor alone. */
    method Prepare(barInFrames: int) returns (r: Start)
      modifies this`cursor
      ensures syncSequence == null ==> r == SyncStart(syncType, NoTarget, OffsetFrames(syncOffset, barInFrames))
      ensures syncSequence != null ==>
        r == SyncStart(syncType,
                       Target(old(syncSequence.cursor),
                              if |syncSequence.buffers| == 0 then None else Some(FrontQuery(syncSequence.buffers[0]))),
                       OffsetFrames(syncOffset, barInFrames))
      ensures r.Start? ==> cursor == r.cursor
      ensures !r.Start? ==> cursor == old(cursor)
    {
      var offset := OffsetFrames(syncOffset, barInFrames);
      match syncType {
        case Immediate =>
          cursor := offset;
          r := Start(offset);
        case Parallel =>
          if syncSequence == null {
            cursor := offset;
            r := Start(offset);
          } else {
            cursor := syncSequence.cursor + offset;
            r := Start(cursor);
          }
        case Serial =>
          if syncSequence == null {
            cursor := offset;
            r := Start(offset);
          } else if |syncSequence.buffers| == 0 {
            r := NoFrontBuffer;
          } else {
            var q := syncSequence.buffers[0].GetLengthInFrames();
            match q {
              case NotPrepared =>
                r := FrontNotPrepared;
              case Ready(n) =>
                cursor := syncSequence.cursor - n + offset;
                r := Start(cursor);
            }
          }
      }
    }

    /** Resolves every queued buffer again, sorted, against a new bar length;
        only the fields `prepare` recomputes change, so each buffer keeps its
        length in bars, its humanize settings and its note-info map. */
    method Reprepare(barInFrames: int, tieBreak: (Event, Event) -> int)
      requires Valid()
      modifies buffers`list, buffers`barLengthInFrames, buffers`lengthInFrames, buffers`prepared
      ensures Valid()
      ensures forall i :: 0 <= i < |buffers| ==> Reprepared(buffers[i], old(buffers[i].list), barInFrames, tieBreak)
      ensures forall i :: 0 <= i < |buffers| ==> SettingsKept(buffers[i])
    {
      ReprepareQueue(buffers, barInFrames, tieBreak);
    }

    /** Tops the queue up by one buffer when fewer than BUFFER_SIZE are
        queued. `buf` is the fresh buffer after the generator filled it and
        `more` what the generator returned. */
    method CheckBuffer(buf: EventBuffer, more: bool, barInFrames: int, tieBreak: (Event, Event) -> int)
      returns (outcome: Refill)
      requires Valid() && buf !in buffers
      modifies this`buffers, buf`list, buf`barLengthInFrames, buf`lengthInFrames, buf`prepared
      ensures Valid() && cursor == old(cursor)
      ensures |old(buffers)| >= BUFFER_SIZE ==>
        && outcome == Full && buffers == old(buffers) && buf.list == old(buf.list) && buf.prepared == old(buf.prepared)
        && buf.barLengthInFrames == old(buf.barLengthInFrames) && buf.lengthInFrames == old(buf.lengthInFrames)
      ensures |old(buffers)| < BUFFER_SIZE ==>
        && buf.prepared && Reprepared(buf, old(buf.list), barInFrames, tieBreak)
        && (more ==> outcome == Enqueued && buffers == old(buffers) + [buf])
        && (!more ==> outcome == Unregistered && buffers == old(buffers))
    {
      if |buffers| < BUFFER_SIZE {
        outcome := OfferNewBuffer(buf, more, barInFrames, tieBreak);
      } else {
        outcome := Full;
      }
    }

    /** Prepares the generator's buffer, then queues it if the generator wants
        to go on, or unregisters the track if it does not. */
    method OfferNewBuffer(buf: EventBuffer, more: bool, barInFrames: int, tieBreak: (Event, Event) -> int)
      returns (outcome: Refill)
      requires Valid() && buf !in buffers && |buffers| < BUFFER_SIZE
      modifies this`buffers, buf`list, buf`barLengthInFrames, buf`lengthInFrames, buf`prepared
      ensures Valid() && cursor == old(cursor)
      ensures buf.prepared && Reprepared(buf, old(buf.list), barInFrames, tieBreak)
      ensures more ==> outcome == Enqueued && buffers == old(buffers) + [buf]
      ensures !more ==> outcome == Unregistered && buffers == old(buffers)
    {
      PrepareSorted(buf, barInFrames, tieBreak);
      if more {
        buffers := buffers + [buf];
        outcome := Enqueued;
      } else {
        outcome := Unregistered;
      }
    }

    /** Empties the queue and rewinds the cursor. */
    method ClearBuffer()
      modifies this`buffers, this`cursor
      ensures Valid() && buffers == [] && cursor == 0
    {
      buffers := [];
      cursor := 0;
    }
  }
}
