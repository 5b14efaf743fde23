/**
 * NoteGrid: the composition data model, a map from beat number to the list
 * of notes played on that beat. The grid does no range checking at all:
 * any int is accepted as a note or a beat, `addNote` appends duplicates,
 * and reading a beat through `operator[]` creates an empty entry for it.
 */
module Grids {
  import opened JuceArray

  type NoteMap = map<int, seq<int>>

  /** The notes stored at `beat`; a beat that has no entry has none. */
  function Get(m: NoteMap, beat: int): seq<int> {
    if beat in m then m[beat] else []
  }

  /** The map after `toggleNote(note, beat)`: remove the note if the beat holds it, append it otherwise. */
  function Toggled(m: NoteMap, note: int, beat: int): NoteMap {
    var notes := Get(m, beat);
    m[beat := if note in notes then RemoveAll(notes, note) else notes + [note]]
  }

  /**
   * The value taken for `getBeatCount`, whose body is not part of the
   * source: one past the last beat holding a note, 0 if none does. This is
   * the number of beats a playback must visit to play every note; the
   * header's wording ("the beats to play back the notes, plus one") could
   * also be read as one more than that.
   */
  ghost predicate IsBeatCount(m: NoteMap, n: int) {
    && n >= 0
    && (forall b :: b in m && m[b] != [] ==> b < n)
    && (n > 0 ==> n - 1 in m && m[n - 1] != [])
  }

  /** The grid holds no note (entries with empty lists may remain). */
  predicate AllEmpty(m: NoteMap) {
    forall b :: b in m ==> m[b] == []
  }

  class NoteGrid {
    // Maps each beat to the list of all notes in that beat.
    var noteMap: NoteMap
    // Space between notes and between beats in pixels, used only for drawing.
    var noteWidth: real
    var beatHeight: real

    constructor ()
      ensures noteMap == map[] && noteWidth == 0.0 && beatHeight == 0.0
    {
      noteMap := map[];
      noteWidth := 0.0;
      beatHeight := 0.0;
    }

    /** `addNote`: append `note` to the beat's list, duplicates and all. */
    method AddNote(note: int, beat: int)
      modifies this`noteMap
      ensures noteMap == old(noteMap)[beat := old(Get(noteMap, beat)) + [note]]
    {
      noteMap := noteMap[beat := Get(noteMap, beat) + [note]];
    }

    /** `removeNote`: remove every instance of `note` from the beat's list. */
    method RemoveNote(note: int, beat: int)
      modifies this`noteMap
      ensures noteMap == old(noteMap)[beat := RemoveAll(old(Get(noteMap, beat)), note)]
    {
      noteMap := noteMap[beat := RemoveAll(Get(noteMap, beat), note)];
    }

    /** `toggleNote`: the result is true exactly when the note was added. */
    method ToggleNote(note: int, beat: int) returns (added: bool)
      modifies this`noteMap
      ensures added <==> note !in old(Get(noteMap, beat))
      ensures noteMap == Toggled(old(noteMap), note, beat)
    {
      // `noteMap[beat]` creates the entry before `contains` is asked.
      noteMap := noteMap[beat := Get(noteMap, beat)];
      if note in noteMap[beat] {
        RemoveNote(note, beat);
        added := false;
      } else {
        AddNote(note, beat);
        added := true;
      }
    }

    /**
     * `getNotes`: a copy of the beat's list. Going through `operator[]`, it
     * leaves an empty entry behind for a beat that had none. Highlighting is
     * drawing state and is not modelled, so `highlight` changes nothing.
     */
    method GetNotes(beat: int, highlight: bool) returns (notes: seq<int>)
      modifies this`noteMap
      ensures notes == old(Get(noteMap, beat))
      ensures noteMap == old(noteMap)[beat := notes]
    {
      noteMap := noteMap[beat := Get(noteMap, beat)];
      notes := noteMap[beat];
    }

    /** `setScale`: store the drawing scale; the notes are untouched. */
    method SetScale(noteWidth: real, beatHeight: real)
      modifies this`noteWidth, this`beatHeight
      ensures this.noteWidth == noteWidth && this.beatHeight == beatHeight
    {
      this.noteWidth := noteWidth;
      this.beatHeight := beatHeight;
    }

    /** `getBeatCount`, as `IsBeatCount` reads it: one past the last beat that holds a note, or 0. */
    method GetBeatCount() returns (n: int)
      ensures IsBeatCount(noteMap, n)
    {
      n := 0;
      var keys := noteMap.Keys;
      while keys != {}
        invariant keys <= noteMap.Keys
        invariant n >= 0
        invariant forall b :: b in noteMap && b !in keys && noteMap[b] != [] ==> b < n
        invariant n > 0 ==> n - 1 in noteMap && noteMap[n - 1] != []
        decreases keys
      {
        NonEmptyHasElement(keys);
        var k :| k in keys;
        if noteMap[k] != [] && k + 1 > n {
          n := k + 1;
        }
        keys := keys - {k};
      }
    }

    /** `getNoteMap`: a copy of the whole beat-to-notes map. */
    function GetNoteMap(): (m: NoteMap)
      reads this
      ensures m == noteMap
    {
      noteMap
    }

    /** `isEmpty`: no beat holds a note. */
    predicate IsEmpty()
      reads this
    {
      AllEmpty(noteMap)
    }

    /** `clear`: remove all note data. */
    method Clear()
      modifies this`noteMap
      ensures noteMap == map[] && IsEmpty()
    {
      noteMap := map[];
    }
  }

  // ---------------------------------------------------------------------------
  // Properties of the specification functions

  lemma NonEmptyHasElement(s: set<int>)
    requires s != {}
    ensures exists x :: x in s
  {
    if forall x :: x !in s {
      assert false;
    }
  }

  /** Toggling flips the membership of the note at the beat and touches no other beat. */
  lemma ToggleFlips(m: NoteMap, note: int, beat: int)
    ensures note in Get(Toggled(m, note, beat), beat) <==> note !in Get(m, beat)
    ensures note !in Get(m, beat) ==> Get(Toggled(m, note, beat), beat) == Get(m, beat) + [note]
    ensures forall b :: b != beat ==> Get(Toggled(m, note, beat), b) == Get(m, b)
    ensures Toggled(m, note, beat).Keys == m.Keys + {beat}
  {
    InRemoveAll(Get(m, beat), note, note);
  }

  /** Toggling twice restores which notes the beat holds. */
  lemma ToggleTwiceMembership(m: NoteMap, note: int, beat: int, n: int)
    ensures n in Get(Toggled(Toggled(m, note, beat), note, beat), beat) <==> n in Get(m, beat)
  {
    var s := Get(m, beat);
    var once := Toggled(m, note, beat);
    if note in s {
      InRemoveAll(s, note, note);
      assert Get(once, beat) == RemoveAll(s, note);
      InRemoveAll(s, note, n);
    } else {
      assert Get(once, beat) == s + [note];
      InRemoveAll(s + [note], note, n);
    }
  }

  /** If the note was absent, toggling twice gives back exactly the same list. */
  lemma ToggleTwiceRestores(m: NoteMap, note: int, beat: int)
    requires note !in Get(m, beat)
    ensures Toggled(Toggled(m, note, beat), note, beat) == m[beat := Get(m, beat)]
  {
    var s := Get(m, beat);
    assert Get(Toggled(m, note, beat), beat) == s + [note];
    RemoveAllConcat(s, [note], note);
    RemoveAllAbsent(s, note);
    assert RemoveAll([note], note) == [];
    assert RemoveAll(s + [note], note) == s;
  }

  /** `getBeatCount` is well defined: at most one value meets its description. */
  lemma BeatCountUnique(m: NoteMap, n1: int, n2: int)
    requires IsBeatCount(m, n1) && IsBeatCount(m, n2)
    ensures n1 == n2
  {
  }

  /**
   * An empty grid has beat count 0; when no beat is negative the converse
   * holds too (a note stored at a negative beat is counted by neither).
   */
  lemma EmptyIffBeatCountZero(m: NoteMap)
    ensures AllEmpty(m) ==> IsBeatCount(m, 0)
    ensures IsBeatCount(m, 0) && (forall b :: b in m ==> b >= 0) ==> AllEmpty(m)
  {
  }
}
