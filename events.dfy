/** Events of one bar: the value every buffer holds, the range test the
    dispatcher applies to it, the order buffers are sorted in, and the
    three-byte MIDI Note On / Note Off encoding of the MIDI 1.0 Detailed
    Specification (section "Channel Voice Messages"). */
module MetroEvents {

  /** One octet of a MIDI message, as the bit pattern Java stores in a `byte`. */
  newtype byte = x: int | 0 <= x < 256

  /** What an event does when the dispatcher reaches it. */
  datatype Payload =
    | Midi(port: int, data: seq<byte>)   // a MIDI message for one output port
    | Procedure(action: nat)             // a callback, identified by an opaque id
    | Other(kind: nat)                   // an event class the dispatcher does not know

  /** An event: its offset within the bar as a fraction of the bar, the frame
      offset resolved from it by the last `prepare`, and its payload. */
  datatype Event = Event(barOffset: real, inFrames: int, payload: Payload)
  {
    predicate IsMidi() { payload.Midi? }

    /** `from` is inclusive, `to` is exclusive. */
    predicate Between(from: int, to: int) { from <= inFrames < to }
  }

  /** A MIDI event at a bar offset; its frame offset is resolved later. */
  function NoteEvent(offset: real, port: int, data: seq<byte>): (e: Event)
    ensures e.barOffset == offset && e.IsMidi()
    ensures e.payload.port == port && e.payload.data == data
  {
    Event(offset, 0, Midi(port, data))
  }

  // ---------------------------------------------------------------------
  // Java's (int) cast of a double: truncation toward zero

  function Trunc(r: real): (n: int)
    ensures r >= 0.0 ==> 0 <= n && n as real <= r < n as real + 1.0
    ensures r < 0.0 ==> n <= 0 && n as real - 1.0 < r <= n as real
  {
    if r >= 0.0 then r.Floor else -((-r).Floor)
  }

  lemma TruncMonotonic(x: real, y: real)
    requires x <= y
    ensures Trunc(x) <= Trunc(y)
  {
    if 0.0 <= x {
      assert x.Floor <= y.Floor;
    } else if y < 0.0 {
      assert (-y).Floor <= (-x).Floor;
    }
  }

  lemma ScaleMonotonic(x: real, y: real, k: real)
    requires x <= y && 0.0 <= k
    ensures x * k <= y * k
  {
    NonNegativeProduct(y - x, k);
    assert y * k - x * k == (y - x) * k;
  }

  lemma NonNegativeProduct(a: real, b: real)
    requires a >= 0.0 && b >= 0.0
    ensures a * b >= 0.0
  {
  }

  lemma PositiveProduct(a: real, b: real)
    requires a > 0.0 && b > 0.0
    ensures a * b > 0.0
  {
  }

  // ---------------------------------------------------------------------
  // Resolution of bar offsets into frames

  /** The event with its frame offset resolved against a bar of
      `barLengthInFrames` frames. */
  function Resolved(e: Event, barLengthInFrames: int): (r: Event)
    ensures r.barOffset == e.barOffset && r.payload == e.payload
    ensures barLengthInFrames >= 0 && e.barOffset >= 0.0 ==> 0 <= r.inFrames
    ensures 0.0 <= e.barOffset < 1.0 && barLengthInFrames > 0 ==> r.inFrames < barLengthInFrames
  {
    ScaledOffsetBounds(e.barOffset, barLengthInFrames as real);
    Event(e.barOffset, Trunc(e.barOffset * barLengthInFrames as real), e.payload)
  }

  lemma ScaledOffsetBounds(x: real, k: real)
    ensures k >= 0.0 && x >= 0.0 ==> x * k >= 0.0
    ensures 0.0 <= x < 1.0 && k > 0.0 ==> x * k < k
  {
    if k >= 0.0 && x >= 0.0 {
      NonNegativeProduct(x, k);
    }
    if 0.0 <= x < 1.0 && k > 0.0 {
      PositiveProduct(1.0 - x, k);
      assert k - x * k == (1.0 - x) * k;
    }
  }

  function ResolveAll(s: seq<Event>, barLengthInFrames: int): (r: seq<Event>)
  {
    seq(|s|, i requires 0 <= i < |s| => Resolved(s[i], barLengthInFrames))
  }

  ghost predicate SortedByBarOffset(s: seq<Event>)
  {
    forall i, j :: 0 <= i < j < |s| ==> s[i].barOffset <= s[j].barOffset
  }

  ghost predicate SortedByFrame(s: seq<Event>)
  {
    forall i, j :: 0 <= i < j < |s| ==> s[i].inFrames <= s[j].inFrames
  }

  /** Resolving a list sorted by bar offset against a non-negative bar length
      gives a list sorted by frame offset, which the dispatcher's early exit
      relies on. */
  lemma ResolvePreservesOrder(s: seq<Event>, barLengthInFrames: int)
    requires SortedByBarOffset(s) && barLengthInFrames >= 0
    ensures SortedByFrame(ResolveAll(s, barLengthInFrames))
  {
    var r := ResolveAll(s, barLengthInFrames);
    forall i, j | 0 <= i < j < |r|
      ensures r[i].inFrames <= r[j].inFrames
    {
      ResolvedInOrder(s[i], s[j], barLengthInFrames);
    }
  }

  lemma ResolvedInOrder(a: Event, b: Event, barLengthInFrames: int)
    requires a.barOffset <= b.barOffset && barLengthInFrames >= 0
    ensures Resolved(a, barLengthInFrames).inFrames <= Resolved(b, barLengthInFrames).inFrames
  {
    var k := barLengthInFrames as real;
    var x, y := a.barOffset * k, b.barOffset * k;
    ScaleMonotonic(a.barOffset, b.barOffset, k);
    TruncMonotonic(x, y);
    ResolvedFrames(a, barLengthInFrames, x);
    ResolvedFrames(b, barLengthInFrames, y);
  }

  /** The resolved frame is the truncated product `x`. */
  lemma ResolvedFrames(e: Event, barLengthInFrames: int, x: real)
    requires x == e.barOffset * barLengthInFrames as real
    ensures Resolved(e, barLengthInFrames).inFrames == Trunc(x)
  {
  }

  // ---------------------------------------------------------------------
  // BAR_OFFSET_COMPARATOR

  function Signum(x: real): (s: int)
    ensures s == -1 || s == 0 || s == 1
    ensures (s < 0) == (x < 0.0) && (s > 0) == (x > 0.0)
  {
    if x < 0.0 then -1 else if x > 0.0 then 1 else 0
  }

  /** Orders by bar offset; between two MIDI events at the same offset it
      defers to `tieBreak` (MetroMidiEvent.compare, not part of this model);
      any other tie compares equal. */
  function Compare(o1: Event, o2: Event, tieBreak: (Event, Event) -> int): (r: int)
    ensures o1.barOffset < o2.barOffset ==> r == -1
    ensures o1.barOffset > o2.barOffset ==> r == 1
    ensures o1.barOffset == o2.barOffset && o1.IsMidi() && o2.IsMidi() ==> r == tieBreak(o1, o2)
    ensures o1.barOffset == o2.barOffset && !(o1.IsMidi() && o2.IsMidi()) ==> r == 0
  {
    var i := Signum(o1.barOffset - o2.barOffset);
    if i != 0 then i
    else if o1.IsMidi() && o2.IsMidi() then tieBreak(o1, o2)
    else 0
  }

  /** Swapping the arguments negates the result whenever the tie-break does. */
  lemma CompareAntisymmetric(o1: Event, o2: Event, tieBreak: (Event, Event) -> int)
    requires tieBreak(o1, o2) == -tieBreak(o2, o1)
    ensures Compare(o1, o2, tieBreak) == -Compare(o2, o1, tieBreak)
  {
  }

  // ---------------------------------------------------------------------
  // Sorting (List.sort with the comparator)

  /** Inserts `x` before the first element it does not compare greater than. */
  function Insert(x: Event, s: seq<Event>, tieBreak: (Event, Event) -> int): (r: seq<Event>)
  {
    if s == [] then [x]
    else if Compare(x, s[0], tieBreak) <= 0 then [x] + s
    else [s[0]] + Insert(x, s[1..], tieBreak)
  }

  function SortEvents(s: seq<Event>, tieBreak: (Event, Event) -> int): (r: seq<Event>)
  {
    if s == [] then [] else Insert(s[0], SortEvents(s[1..], tieBreak), tieBreak)
  }

  lemma {:induction false} InsertCorrect(x: Event, s: seq<Event>, tieBreak: (Event, Event) -> int)
    requires SortedByBarOffset(s)
    ensures multiset(Insert(x, s, tieBreak)) == multiset(s) + multiset{x}
    ensures SortedByBarOffset(Insert(x, s, tieBreak))
    ensures |Insert(x, s, tieBreak)| == |s| + 1
    ensures s != [] ==> Insert(x, s, tieBreak)[0] == x || Insert(x, s, tieBreak)[0] == s[0]
  {
    InsertPermutes(x, s, tieBreak);
    InsertSorted(x, s, tieBreak);
  }

  /** Insertion adds exactly `x`, and the head is `x` or the old head. */
  lemma {:induction false} InsertPermutes(x: Event, s: seq<Event>, tieBreak: (Event, Event) -> int)
    ensures multiset(Insert(x, s, tieBreak)) == multiset(s) + multiset{x}
    ensures |Insert(x, s, tieBreak)| == |s| + 1
    ensures s != [] ==> Insert(x, s, tieBreak)[0] == x || Insert(x, s, tieBreak)[0] == s[0]
  {
    if s != [] && Compare(x, s[0], tieBreak) > 0 {
      InsertPermutes(x, s[1..], tieBreak);
      assert s == [s[0]] + s[1..];
    }
  }

  lemma {:induction false} InsertSorted(x: Event, s: seq<Event>, tieBreak: (Event, Event) -> int)
    requires SortedByBarOffset(s)
    ensures SortedByBarOffset(Insert(x, s, tieBreak))
  {
    if s == [] {
    } else if Compare(x, s[0], tieBreak) <= 0 {
      assert forall k :: 0 <= k < |s| ==> x.barOffset <= s[k].barOffset;
      ConsSorted(x, s);
    } else {
      var t := Insert(x, s[1..], tieBreak);
      InsertSorted(x, s[1..], tieBreak);
      InsertPermutes(x, s[1..], tieBreak);
      AboveHead(s, x);
      forall k | 0 <= k < |t| ensures s[0].barOffset <= t[k].barOffset {
        assert t[k] in multiset(t);
      }
      ConsSorted(s[0], t);
    }
  }

  /** A sorted list stays sorted when an element no later than any of its
      elements is put in front. */
  lemma ConsSorted(h: Event, t: seq<Event>)
    requires SortedByBarOffset(t)
    requires forall k :: 0 <= k < |t| ==> h.barOffset <= t[k].barOffset
    ensures SortedByBarOffset([h] + t)
  {
    var r := [h] + t;
    forall i, j | 0 <= i < j < |r| ensures r[i].barOffset <= r[j].barOffset {
      assert r[j] == t[j - 1];
      if i > 0 { assert r[i] == t[i - 1]; }
    }
  }

  /** In a list sorted by bar offset, the rest of the list and anything not
      before the head lie at or after the head. */
  lemma AboveHead(s: seq<Event>, x: Event)
    requires SortedByBarOffset(s) && s != [] && s[0].barOffset <= x.barOffset
    ensures forall e :: e in multiset(s[1..]) + multiset{x} ==> s[0].barOffset <= e.barOffset
  {
    forall e | e in multiset(s[1..]) + multiset{x} ensures s[0].barOffset <= e.barOffset {
      if e != x {
        assert e in s[1..];
        var k :| 0 <= k < |s[1..]| && s[1..][k] == e;
        assert s[k + 1] == e;
      }
    }
  }

  /** The sorted list is a permutation of the input, in ascending bar offset,
      whatever the tie-break between MIDI events says. */
  lemma {:induction false} SortEventsCorrect(s: seq<Event>, tieBreak: (Event, Event) -> int)
    ensures multiset(SortEvents(s, tieBreak)) == multiset(s)
    ensures SortedByBarOffset(SortEvents(s, tieBreak))
    ensures |SortEvents(s, tieBreak)| == |s|
  {
    if s != [] {
      SortEventsCorrect(s[1..], tieBreak);
      InsertCorrect(s[0], SortEvents(s[1..], tieBreak), tieBreak);
      assert s == [s[0]] + s[1..];
    }
  }

  /** The comparator is not transitive: a non-MIDI event between two MIDI
      events at one bar offset compares equal to both, while the two MIDI
      events are ordered by the tie-break. So no sort can promise the
      tie-break order, and this one leaves such a run as it found it even
      when the tie-break puts `b` first. */
  lemma CompareNotTransitive(a: Event, p: Event, b: Event, tieBreak: (Event, Event) -> int)
    requires a.IsMidi() && b.IsMidi() && !p.IsMidi()
    requires a.barOffset == p.barOffset == b.barOffset
    requires tieBreak(a, b) > 0
    ensures Compare(a, p, tieBreak) == 0 && Compare(p, b, tieBreak) == 0
    ensures Compare(a, b, tieBreak) > 0
    ensures SortEvents([a, p, b], tieBreak) == [a, p, b]
  {
    assert [a, p, b][1..] == [p, b];
    assert [p, b][1..] == [b];
    assert SortEvents([b], tieBreak) == [b];
    assert Insert(p, [b], tieBreak) == [p, b];
  }

  // ---------------------------------------------------------------------
  // Note On / Note Off encoding

  const NOTE_ON: int := 0x90
  const NOTE_OFF: int := 0x80

  /** The two halves of a status byte: message kind (high nibble) and channel. */
  function StatusKind(status: byte): int { (status as int / 16) * 16 }
  function StatusChannel(status: byte): int { status as int % 16 }

  /** `(0xF0 & kind) | (0x0F & channel)`, written with Euclidean `/` and `%`,
      which match two's-complement masking for negative operands too. */
  function StatusByte(kind: int, channel: int): (s: byte)
    ensures StatusKind(s) == (kind % 256 / 16) * 16
    ensures StatusChannel(s) == channel % 16
  {
    ((kind % 256 / 16) * 16 + channel % 16) as byte
  }

  /** Velocity saturated to [0, 1]. */
  function Clamp(v: real): (c: real)
    ensures 0.0 <= c <= 1.0
    ensures 0.0 <= v <= 1.0 ==> c == v
    ensures v < 0.0 ==> c == 0.0
    ensures v > 1.0 ==> c == 1.0
  {
    if v < 0.0 then 0.0 else if 1.0 < v then 1.0 else v
  }

  /** `(byte)(127d * velocity)` after clamping. */
  function VelocityByte(velocity: real): (b: byte)
    ensures 0 <= b <= 127
    ensures velocity >= 1.0 ==> b == 127
    ensures velocity * 127.0 < 1.0 ==> b == 0
  {
    Trunc(127.0 * Clamp(velocity)) as byte
  }

  /** The three bytes of a note message: status, note number (its low eight
      bits, as `(byte) note` keeps them) and velocity. */
  function NoteData(kind: int, channel: int, note: int, velocity: real): (data: seq<byte>)
    ensures |data| == 3
    ensures StatusKind(data[0]) == (kind % 256 / 16) * 16
    ensures StatusChannel(data[0]) == channel % 16
    ensures data[1] as int == note % 256
    ensures data[2] == VelocityByte(velocity)
  {
    [StatusByte(kind, channel), (note % 256) as byte, VelocityByte(velocity)]
  }

  /** Decoding the status of a Note On or Note Off message gives back its kind
      and the channel's low nibble. */
  lemma NoteStatusRoundTrip(channel: int, note: int, velocity: real)
    ensures StatusKind(NoteData(NOTE_ON, channel, note, velocity)[0]) == NOTE_ON
    ensures StatusKind(NoteData(NOTE_OFF, channel, note, velocity)[0]) == NOTE_OFF
    ensures 0 <= channel < 16 ==> StatusChannel(NoteData(NOTE_ON, channel, note, velocity)[0]) == channel
    ensures 0 <= channel < 16 ==> StatusChannel(NoteData(NOTE_OFF, channel, note, velocity)[0]) == channel
  {
  }
}
