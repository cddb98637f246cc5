/** The keyed store that lets a note-off reuse the humanisation delta its
    note-on drew (MetroNoteInfoMap). */
module NoteInfo {

  /** A note is identified by all three of its coordinates. */
  datatype NoteKey = NoteKey(port: int, channel: int, note: int)

  /** The offset and velocity jitter drawn at note-on. */
  datatype Delta = Delta(offset: real, velocity: real)

  const ZERO: Delta := Delta(0.0, 0.0)

  /** What a lookup sees: the stored delta, or zero when nothing was stored. */
  function Lookup(m: map<NoteKey, Delta>, k: NoteKey): Delta
  {
    if k in m then m[k] else ZERO
  }

  class NoteInfoMap {
    var entries: map<NoteKey, Delta>

    constructor ()
      ensures entries == map[]
    {
      entries := map[];
    }

    method Put(port: int, channel: int, note: int, offset: real, velocity: real)
      modifies this
      ensures entries == old(entries)[NoteKey(port, channel, note) := Delta(offset, velocity)]
    {
      entries := entries[NoteKey(port, channel, note) := Delta(offset, velocity)];
    }

    method ContainsKey(port: int, channel: int, note: int) returns (b: bool)
      ensures b <==> NoteKey(port, channel, note) in entries
    {
      b := NoteKey(port, channel, note) in entries;
    }

    /** Never fails: an absent key reads as the zero delta. */
    method Get(port: int, channel: int, note: int) returns (v: Delta)
      ensures NoteKey(port, channel, note) in entries ==> v == entries[NoteKey(port, channel, note)]
      ensures NoteKey(port, channel, note) !in entries ==> v == ZERO
    {
      var key := NoteKey(port, channel, note);
      if key in entries {
        v := entries[key];
      } else {
        v := ZERO;
      }
    }

    method Clear()
      modifies this
      ensures entries == map[]
    {
      entries := map[];
    }
  }

  /** The map after a series of puts, applied in order. */
  function Replay(m: map<NoteKey, Delta>, puts: seq<(NoteKey, Delta)>): map<NoteKey, Delta>
    decreases |puts|
  {
    if puts == [] then m else Replay(m[puts[0].0 := puts[0].1], puts[1..])
  }

  /** The delta of the most recent put for `k`, or `fallback` if there is none. */
  function LastWrite(puts: seq<(NoteKey, Delta)>, k: NoteKey, fallback: Delta): Delta
    decreases |puts|
  {
    if puts == [] then fallback
    else if puts[|puts| - 1].0 == k then puts[|puts| - 1].1
    else LastWrite(puts[..|puts| - 1], k, fallback)
  }

  lemma {:induction false} LastWriteAppend(puts: seq<(NoteKey, Delta)>, p: (NoteKey, Delta), k: NoteKey, fallback: Delta)
    ensures LastWrite([p] + puts, k, fallback) == LastWrite(puts, k, if p.0 == k then p.1 else fallback)
    decreases |puts|
  {
    if puts != [] {
      assert ([p] + puts)[..|puts|] == [p] + puts[..|puts| - 1];
      LastWriteAppend(puts[..|puts| - 1], p, k, fallback);
    }
  }

  /** Last write wins: after any series of note-on puts, a lookup of a key
      sees the delta of the latest put for exactly that key, and a key that
      was never put keeps what it had. */
  lemma {:induction false} ReplayLastWriteWins(m: map<NoteKey, Delta>, puts: seq<(NoteKey, Delta)>, k: NoteKey)
    ensures Lookup(Replay(m, puts), k) == LastWrite(puts, k, Lookup(m, k))
    decreases |puts|
  {
    if puts != [] {
      var m' := m[puts[0].0 := puts[0].1];
      ReplayLastWriteWins(m', puts[1..], k);
      LastWriteAppend(puts[1..], puts[0], k, Lookup(m, k));
      assert [puts[0]] + puts[1..] == puts;
    }
  }

  /** A put under a key that differs in any one of port, channel or note
      leaves the other key's delta alone. */
  lemma PutOtherKeyUnchanged(m: map<NoteKey, Delta>, k1: NoteKey, d: Delta, k2: NoteKey)
    requires k1.port != k2.port || k1.channel != k2.channel || k1.note != k2.note
    ensures Lookup(m[k1 := d], k2) == Lookup(m, k2)
  {
  }
}
