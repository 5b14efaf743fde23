/**
 * MusicFile: the song file format. A file is a list of lines; a line
 * holding ':' is a beat line "<beat>:<notes>", any other line whose number
 * is positive sets the tempo. The writer emits the tempo first, then one
 * line "<beat>: n1 n2 ..." for each beat holding notes, in ascending beat
 * order (the order of the `std::map` it iterates).
 *
 * The reader takes the note tokens from the text starting AT the first ':',
 * so the token glued to the colon always contains ':' and is dropped:
 * "0:3 7" holds only note 7. The writer always puts a space after the
 * colon, so what it writes is read back in full.
 *
 * Files are modelled by their text: the constructor is given the file's
 * contents (or None when no file exists at the path) and whether the path
 * is writable, and `WriteToFile` returns the text it would write.
 */
module MusicFiles {
  import opened JuceArray
  import opened JuceText
  import opened Grids

  datatype Option<T> = None | Some(value: T)

  /** The tempo of a file that sets none. */
  const DefaultBpm: int := 60

  /** What a music file holds: the tempo and the beat-to-notes map. */
  datatype Song = Song(bpm: int, notes: NoteMap)

  // ---------------------------------------------------------------------------
  // Reading

  /** The notes kept from a line's tokens: the all-digit ones (the empty token too), read as ints. */
  function KeptNotes(tokens: seq<string>): (notes: seq<int>)
    ensures forall i :: 0 <= i < |notes| ==> notes[i] >= 0
  {
    if tokens == [] then []
    else
      var t := tokens[|tokens| - 1];
      if ContainsOnlyDigits(t) then
        GetIntValueOfDigits(t);
        KeptNotes(tokens[..|tokens| - 1]) + [GetIntValue(t)]
      else
        KeptNotes(tokens[..|tokens| - 1])
  }

  /** The beat of a beat line: the number before its first ':'. */
  function LineBeat(line: string): int
    requires ':' in line
  {
    GetIntValue(line[..FirstIndexIn(line, {':'})])
  }

  /** The notes of a beat line: the kept tokens of the text from its first ':' on. */
  function LineNotes(line: string): seq<int>
    requires ':' in line
  {
    KeptNotes(Tokens(line[FirstIndexIn(line, {':'})..]))
  }

  /** A line that sets the tempo: no ':' and a positive number. */
  predicate SetsBpm(line: string) {
    ':' !in line && GetIntValue(line) > 0
  }

  /** A line that stores notes at beat `b`. */
  predicate SetsBeat(line: string, b: int) {
    ':' in line && LineNotes(line) != [] && LineBeat(line) == b
  }

  /** One line read into what the lines before it gave. */
  function ApplyLine(song: Song, line: string): Song {
    if ':' in line then
      if LineNotes(line) != [] then song.(notes := song.notes[LineBeat(line) := LineNotes(line)]) else song
    else
      if GetIntValue(line) > 0 then song.(bpm := GetIntValue(line)) else song
  }

  /** The lines read one after the other, starting from `song`. */
  function ApplyLines(song: Song, lines: seq<string>): Song {
    if lines == [] then song else ApplyLine(ApplyLines(song, lines[..|lines| - 1]), lines[|lines| - 1])
  }

  /** What the constructor reads from a file's text. */
  function Parse(text: string): Song {
    ApplyLines(Song(DefaultBpm, map[]), ReadLines(text))
  }

  // ---------------------------------------------------------------------------
  // Writing

  /** A non-empty set of ints has a least element. */
  lemma {:induction false} HasMinimum(s: set<int>)
    requires s != {}
    ensures exists m :: m in s && forall x :: x in s ==> m <= x
    decreases s
  {
    NonEmptyHasElement(s);
    var y :| y in s;
    if s != {y} {
      HasMinimum(s - {y});
      var m :| m in s - {y} && forall x :: x in s - {y} ==> m <= x;
      forall x | x in s
        ensures y < m ==> y <= x
        ensures m <= y ==> m <= x
      {
        if x != y {
          assert x in s - {y};
        }
      }
    } else {
      assert forall x :: x in s ==> y <= x;
    }
  }

  function Minimum(s: set<int>): (m: int)
    requires s != {}
    ensures m in s && forall x :: x in s ==> m <= x
  {
    HasMinimum(s);
    var m :| m in s && forall x :: x in s ==> m <= x;
    m
  }

  /** The keys of a `std::map` in iteration order: ascending (see `SortedKeysOrdered`). */
  function SortedKeys(s: set<int>): seq<int>
    decreases s
  {
    if s == {} then [] else var m := Minimum(s); [m] + SortedKeys(s - {m})
  }

  /** `SortedKeys` lists every element of the set, each once, in strictly ascending order. */
  lemma {:induction false} SortedKeysOrdered(s: set<int>)
    ensures var keys := SortedKeys(s);
      && (forall i, j :: 0 <= i < j < |keys| ==> keys[i] < keys[j])
      && (forall x :: x in keys <==> x in s)
    decreases s
  {
    if s != {} {
      var m := Minimum(s);
      SortedKeysOrdered(s - {m});
      var rest := SortedKeys(s - {m});
      var keys := [m] + rest;
      assert SortedKeys(s) == keys;
      forall i, j | 0 <= i < j < |keys|
        ensures keys[i] < keys[j]
      {
        assert keys[j] == rest[j - 1] && keys[j] in s - {m};
        if i > 0 {
          assert keys[i] == rest[i - 1];
        }
      }
    }
  }

  /** The notes of a written line after the colon: a space, then the number, for each note. */
  function NotesText(notes: seq<int>): string {
    if notes == [] then [] else NotesText(notes[..|notes| - 1]) + " " + IntStr(notes[|notes| - 1])
  }

  /** The text of each note, in order: the tokens a written line holds after its colon. */
  function NoteTokens(notes: seq<int>): seq<string> {
    if notes == [] then [] else NoteTokens(notes[..|notes| - 1]) + [IntStr(notes[|notes| - 1])]
  }

  /** A written beat line. */
  function LineText(beat: int, notes: seq<int>): string {
    IntStr(beat) + ":" + NotesText(notes)
  }

  /** The beat lines written for `keys`, in that order, skipping beats without notes. */
  function BeatLines(m: NoteMap, keys: seq<int>): seq<string> {
    if keys == [] then []
    else
      var k := keys[|keys| - 1];
      BeatLines(m, keys[..|keys| - 1]) + (if Get(m, k) == [] then [] else [LineText(k, Get(m, k))])
  }

  /** The text `writeToFile` writes: the tempo line, then the beat lines in ascending beat order. */
  function Serialize(song: Song): string {
    JoinLines([IntStr(song.bpm)] + BeatLines(song.notes, SortedKeys(song.notes.Keys)))
  }

  /** The beats among `keys` that hold notes, with their notes. */
  function NonEmptyAt(m: NoteMap, keys: seq<int>): NoteMap {
    if keys == [] then map[]
    else
      var k := keys[|keys| - 1];
      var before := NonEmptyAt(m, keys[..|keys| - 1]);
      if Get(m, k) == [] then before else before[k := Get(m, k)]
  }

  /** The grid's map after `addNote(n, beat)` for each note n of `notes`, in order. */
  function AddedNotes(g: NoteMap, beat: int, notes: seq<int>): NoteMap {
    if notes == [] then g
    else
      var before := AddedNotes(g, beat, notes[..|notes| - 1]);
      before[beat := Get(before, beat) + [notes[|notes| - 1]]]
  }

  /** The grid's map after the notes at `keys` have been added to it, beat by beat in that order. */
  function Exported(g: NoteMap, m: NoteMap, keys: seq<int>): NoteMap {
    if keys == [] then g
    else AddedNotes(Exported(g, m, keys[..|keys| - 1]), keys[|keys| - 1], Get(m, keys[|keys| - 1]))
  }

  /** The beats that hold notes, with their notes. */
  function NonEmpty(m: NoteMap): NoteMap {
    map b | b in m && m[b] != [] :: m[b]
  }

  /** No beat holds a negative note. */
  predicate NoNegativeNotes(m: NoteMap) {
    forall b :: b in m ==> forall i :: 0 <= i < |m[b]| ==> m[b][i] >= 0
  }

  /** The inner loop of `exportToNoteGrid`: `addNote(n, beat)` for each note n of `notes`, in order. */
  method AddNotesAt(grid: NoteGrid, beat: int, notes: seq<int>)
    modifies grid`noteMap
    ensures grid.noteMap == AddedNotes(old(grid.noteMap), beat, notes)
  {
    for j := 0 to |notes|
      invariant grid.noteMap == AddedNotes(old(grid.noteMap), beat, notes[..j])
    {
      assert notes[..j + 1][..j] == notes[..j];
      grid.AddNote(notes[j], beat);
    }
    assert notes[..|notes|] == notes;
  }

  class MusicFile {
    var path: string
    var bpm: int
    var noteMap: NoteMap

    /**
     * `MusicFile(path)`: an existing file is read line by line; with no
     * file and no write access the path is cleared.
     */
    constructor (path: string, existing: Option<string>, writable: bool)
      ensures existing.Some? ==> this.path == path && Song(bpm, noteMap) == Parse(existing.value)
      ensures existing.None? ==>
        && this.path == (if writable then path else "")
        && bpm == DefaultBpm && noteMap == map[]
    {
      var songBpm := DefaultBpm;
      var songNotes: NoteMap := map[];
      var newPath := path;
      if existing.Some? {
        var lines := ReadLines(existing.value);
        for i := 0 to |lines|
          invariant Song(songBpm, songNotes) == ApplyLines(Song(DefaultBpm, map[]), lines[..i])
        {
          var line := lines[i];
          assert lines[..i + 1][..i] == lines[..i];
          if ':' in line {
            var idx := FirstIndexIn(line, {':'});
            var beat := GetIntValue(line[..idx]);
            var notes: seq<int> := [];
            var noteStrings := Tokens(line[idx..]);
            for j := 0 to |noteStrings|
              invariant notes == KeptNotes(noteStrings[..j])
            {
              assert noteStrings[..j + 1][..j] == noteStrings[..j];
              if ContainsOnlyDigits(noteStrings[j]) {
                notes := notes + [GetIntValue(noteStrings[j])];
              }
            }
            assert noteStrings[..|noteStrings|] == noteStrings;
            if notes != [] {
              songNotes := songNotes[beat := notes];
            }
          } else {
            var lineNum := GetIntValue(line);
            if lineNum > 0 {
              songBpm := lineNum;
            }
          }
        }
        assert lines[..|lines|] == lines;
      } else if !writable {
        newPath := "";
      }
      this.path := newPath;
      bpm := songBpm;
      noteMap := songNotes;
    }

    /** `getBPM`. */
    function GetBPM(): int
      reads this
    {
      bpm
    }

    /** `setBPM`: `getBPM` then returns the new tempo; the notes are untouched. */
    method SetBPM(bpm: int)
      modifies this`bpm
      ensures GetBPM() == bpm
    {
      this.bpm := bpm;
    }

    /** `importNoteGrid`: the file's notes become a copy of the grid's map. */
    method ImportNoteGrid(grid: NoteGrid)
      modifies this`noteMap
      ensures noteMap == grid.noteMap
    {
      noteMap := grid.GetNoteMap();
    }

    /**
     * `exportToNoteGrid`: every note of every beat holding notes is added to
     * the grid, beat by beat in ascending order; the grid is not cleared
     * first, so each beat's file notes end up after the grid's own.
     */
    method ExportToNoteGrid(grid: NoteGrid)
      modifies grid`noteMap
      ensures grid.noteMap == Exported(old(grid.noteMap), noteMap, SortedKeys(noteMap.Keys))
    {
      var m := noteMap;
      var keys := SortedKeys(m.Keys);
      for i := 0 to |keys|
        invariant grid.noteMap == Exported(old(grid.noteMap), m, keys[..i])
      {
        var beat := keys[i];
        var notes := Get(m, beat);
        if notes != [] {
          AddNotesAt(grid, beat, notes);
        }
        assert keys[..i + 1][..i] == keys[..i];
      }
      assert keys[..|keys|] == keys;
    }

    /**
     * `writeToFile`: the text written to the path. Every beat line gets a
     * space after the colon: the line is never a single character when a
     * note is appended, so the writer's length test always passes.
     */
    method WriteToFile() returns (text: string)
      ensures text == Serialize(Song(bpm, noteMap))
    {
      var m := noteMap;
      var head := IntStr(bpm);
      var fileOutput := head;
      var keys := SortedKeys(m.Keys);
      for i := 0 to |keys|
        invariant fileOutput == JoinLines([head] + BeatLines(m, keys[..i]))
      {
        var beat := keys[i];
        var notes := Get(m, beat);
        WrittenSnoc(head, m, keys, i);
        if notes == [] {
          continue;
        }
        var line := WriteBeatLine(beat, notes);
        fileOutput := fileOutput + "\n" + line;
      }
      assert keys[..|keys|] == keys;
      text := fileOutput;
    }
  }

  /**
   * The beat line `writeToFile` builds: the beat, a colon, then each note
   * with a space before it whenever the line is longer than one character.
   */
  method WriteBeatLine(beat: int, notes: seq<int>) returns (line: string)
    ensures line == LineText(beat, notes)
  {
    line := IntStr(beat) + ":";
    assert line == LineText(beat, notes[..0]);
    for j := 0 to |notes|
      invariant line == LineText(beat, notes[..j])
    {
      LineTextSnoc(beat, notes, j);
      if |line| > 1 {
        line := line + " ";
      }
      line := line + IntStr(notes[j]);
    }
    assert notes[..|notes|] == notes;
  }

  /** One more note written: a space, then the note's text. */
  lemma LineTextSnoc(beat: int, notes: seq<int>, j: nat)
    requires j < |notes|
    ensures |LineText(beat, notes[..j])| > 1
    ensures LineText(beat, notes[..j + 1]) == LineText(beat, notes[..j]) + " " + IntStr(notes[j])
  {
    assert notes[..j + 1][..j] == notes[..j];
    var a, t := IntStr(beat) + ":", NotesText(notes[..j]);
    assert NotesText(notes[..j + 1]) == t + " " + IntStr(notes[j]);
    assert a + (t + " " + IntStr(notes[j])) == (a + t) + " " + IntStr(notes[j]);
  }

  /** One more beat written: a beat without notes adds nothing, any other beat adds its line. */
  lemma WrittenSnoc(head: string, m: NoteMap, keys: seq<int>, i: nat)
    requires i < |keys|
    ensures var k, before := keys[i], JoinLines([head] + BeatLines(m, keys[..i]));
      JoinLines([head] + BeatLines(m, keys[..i + 1]))
      == if Get(m, k) == [] then before else before + "\n" + LineText(k, Get(m, k))
  {
    var k := keys[i];
    assert keys[..i + 1][..i] == keys[..i];
    var before := BeatLines(m, keys[..i]);
    if Get(m, k) == [] {
      assert BeatLines(m, keys[..i + 1]) == before + [];
      assert before + [] == before;
    } else {
      var line := LineText(k, Get(m, k));
      assert BeatLines(m, keys[..i + 1]) == before + [line];
      assert [head] + (before + [line]) == ([head] + before) + [line];
      JoinLinesSnoc([head] + before, line);
    }
  }

  // ---------------------------------------------------------------------------
  // Reading, line by line

  /** Reading is a left fold: the lines of `a + b` are `a` read first, then `b`. */
  lemma {:induction false} ApplyLinesConcat(song: Song, a: seq<string>, b: seq<string>)
    ensures ApplyLines(song, a + b) == ApplyLines(ApplyLines(song, a), b)
  {
    if b == [] {
      assert a + b == a;
    } else {
      assert (a + b)[..|a + b| - 1] == a + b[..|b| - 1];
      ApplyLinesConcat(song, a, b[..|b| - 1]);
    }
  }

  /** The tempo after reading is the number on the last tempo line. */
  lemma {:induction false} ParsedBpmIsLast(song: Song, lines: seq<string>, i: nat)
    requires i < |lines| && SetsBpm(lines[i])
    requires forall j :: i < j < |lines| ==> !SetsBpm(lines[j])
    ensures ApplyLines(song, lines).bpm == GetIntValue(lines[i])
  {
    var init, last := lines[..|lines| - 1], lines[|lines| - 1];
    if i < |lines| - 1 {
      assert forall j :: i <= j < |init| ==> init[j] == lines[j];
      ParsedBpmIsLast(song, init, i);
      LineKeepsBpm(ApplyLines(song, init), last);
    } else {
      LineSetsBpm(ApplyLines(song, init), last);
    }
  }

  /** Without a tempo line the tempo is what it was before reading (60 for a new file). */
  lemma {:induction false} BpmKeptWithoutBpmLine(song: Song, lines: seq<string>)
    requires forall j :: 0 <= j < |lines| ==> !SetsBpm(lines[j])
    ensures ApplyLines(song, lines).bpm == song.bpm
  {
    if lines != [] {
      var init, last := lines[..|lines| - 1], lines[|lines| - 1];
      assert forall j :: 0 <= j < |init| ==> init[j] == lines[j];
      BpmKeptWithoutBpmLine(song, init);
      LineKeepsBpm(ApplyLines(song, init), last);
    }
  }

  /** A tempo line sets the tempo to its number. */
  lemma LineSetsBpm(song: Song, line: string)
    requires SetsBpm(line)
    ensures ApplyLine(song, line).bpm == GetIntValue(line)
  {
  }

  /** A line that does not set the tempo leaves it as it was. */
  lemma LineKeepsBpm(song: Song, line: string)
    requires !SetsBpm(line)
    ensures ApplyLine(song, line).bpm == song.bpm
  {
  }

  /** A beat's notes after reading are those of the last line that stores notes at it. */
  lemma {:induction false} ParsedBeatIsLast(song: Song, lines: seq<string>, i: nat, b: int)
    requires i < |lines| && SetsBeat(lines[i], b)
    requires forall j :: i < j < |lines| ==> !SetsBeat(lines[j], b)
    ensures b in ApplyLines(song, lines).notes
    ensures ApplyLines(song, lines).notes[b] == LineNotes(lines[i])
  {
    var init, last := lines[..|lines| - 1], lines[|lines| - 1];
    var before := ApplyLines(song, init);
    if i < |lines| - 1 {
      forall j | i < j < |init|
        ensures !SetsBeat(init[j], b)
      {
        assert init[j] == lines[j];
      }
      ParsedBeatIsLast(song, init, i, b);
      LineKeepsBeat(before, last, b);
    } else {
      LineSetsBeat(before, last, b);
    }
  }

  /** A beat no line stores notes at keeps what it had (lines whose notes are all dropped store nothing). */
  lemma {:induction false} BeatKeptWithoutBeatLine(song: Song, lines: seq<string>, b: int)
    requires forall j :: 0 <= j < |lines| ==> !SetsBeat(lines[j], b)
    ensures b in ApplyLines(song, lines).notes <==> b in song.notes
    ensures Get(ApplyLines(song, lines).notes, b) == Get(song.notes, b)
  {
    if lines != [] {
      var init, last := lines[..|lines| - 1], lines[|lines| - 1];
      assert forall j :: 0 <= j < |init| ==> init[j] == lines[j];
      BeatKeptWithoutBeatLine(song, init, b);
      LineKeepsBeat(ApplyLines(song, init), last, b);
    }
  }

  /** A line that stores notes at beat `b` sets that beat to them. */
  lemma LineSetsBeat(song: Song, line: string, b: int)
    requires SetsBeat(line, b)
    ensures b in ApplyLine(song, line).notes && ApplyLine(song, line).notes[b] == LineNotes(line)
  {
  }

  /** A line that stores no notes at beat `b` leaves that beat as it was. */
  lemma LineKeepsBeat(song: Song, line: string, b: int)
    requires !SetsBeat(line, b)
    ensures b in ApplyLine(song, line).notes <==> b in song.notes
    ensures Get(ApplyLine(song, line).notes, b) == Get(song.notes, b)
  {
  }

  /** The note glued to the colon is dropped: "0:3 7" stores only note 7 at beat 0. */
  lemma GluedNoteDropped()
    ensures ':' in "0:3 7" && LineBeat("0:3 7") == 0 && LineNotes("0:3 7") == [7]
  {
    GluedSplit();
    GluedTokens();
    GluedTokensKept();
    ReadZero();
  }

  /** The beat text "0" reads as 0. */
  lemma ReadZero()
    ensures GetIntValue("0") == 0
  {
    assert SkipWhitespace("0") == "0";
    assert DigitPrefix("0") == "0";
  }

  /** The first ':' of "0:3 7" is at index 1: the beat text is "0", the rest ":3 7". */
  lemma GluedSplit()
    ensures FirstIndexIn("0:3 7", {':'}) == 1
    ensures "0:3 7"[..1] == "0" && "0:3 7"[1..] == ":3 7"
  {
    SplitAtFirst("0", ':', "3 7", {':'});
    assert "0" + [':'] + "3 7" == "0:3 7";
  }

  /** ":3 7" splits into the tokens ":3" and "7". */
  lemma GluedTokens()
    ensures Tokens(":3 7") == [":3", "7"]
  {
    assert ":3" + [' '] + "7" == ":3 7";
    assert NoneIn(":3", Whitespace) && NoneIn("7", Whitespace);
    SplitOnSnoc(":3", ' ', "7", Whitespace);
    SplitOnNone(":3", Whitespace);
  }

  /** Of the tokens ":3" and "7" only the second is all digits: the notes read are [7]. */
  lemma GluedTokensKept()
    ensures KeptNotes([":3", "7"]) == [7]
  {
    assert !IsDigit(":3"[0]);
    assert ContainsOnlyDigits("7");
    assert [":3", "7"][..1] == [":3"] && [":3"][..0] == [];
    assert GetIntValue("7") == 7 by {
      assert SkipWhitespace("7") == "7";
      assert DigitPrefix("7") == "7";
    }
  }

  /**
   * Empty tokens pass the digit filter and read as 0: a trailing space in
   * "0: 3 " leaves an empty last token, so beat 0 stores notes [3, 0].
   */
  lemma TrailingSpaceAddsNoteZero()
    ensures ':' in "0: 3 " && LineBeat("0: 3 ") == 0 && LineNotes("0: 3 ") == [3, 0]
  {
    TrailingSpaceSplit();
    TrailingSpaceTokens();
    TrailingSpaceTokensKept();
    ReadZero();
  }

  /** The first ':' of "0: 3 " is at index 1: the beat text is "0", the rest ": 3 ". */
  lemma TrailingSpaceSplit()
    ensures FirstIndexIn("0: 3 ", {':'}) == 1
    ensures "0: 3 "[..1] == "0" && "0: 3 "[1..] == ": 3 "
  {
    SplitAtFirst("0", ':', " 3 ", {':'});
    assert "0" + [':'] + " 3 " == "0: 3 ";
  }

  /** ": 3 " splits into ":", "3" and an empty token after the last space. */
  lemma TrailingSpaceTokens()
    ensures Tokens(": 3 ") == [":", "3", ""]
  {
    assert ": 3" + [' '] + "" == ": 3 ";
    assert NoneIn("", Whitespace);
    SplitOnSnoc(": 3", ' ', "", Whitespace);
    ColonThreeTokens();
  }

  /** ": 3" splits into ":" and "3". */
  lemma ColonThreeTokens()
    ensures SplitOn(": 3", Whitespace) == [":", "3"]
  {
    assert ":" + [' '] + "3" == ": 3";
    assert NoneIn(":", Whitespace) && NoneIn("3", Whitespace);
    SplitOnSnoc(":", ' ', "3", Whitespace);
    SplitOnNone(":", Whitespace);
  }

  /** Of ":", "3" and "", the last two are all digits: the notes read are 3 and 0. */
  lemma TrailingSpaceTokensKept()
    ensures KeptNotes([":", "3", ""]) == [3, 0]
  {
    assert ContainsOnlyDigits("") && ContainsOnlyDigits("3") && !IsDigit(":"[0]);
    assert GetIntValue("") == 0 by {
      assert SkipWhitespace("") == "";
      assert DigitPrefix("") == "";
    }
    assert GetIntValue("3") == 3 by {
      assert SkipWhitespace("3") == "3";
      assert DigitPrefix("3") == "3";
    }
    assert [":", "3", ""][..2] == [":", "3"] && [":", "3"][..1] == [":"] && [":"][..0] == [];
  }

  // ---------------------------------------------------------------------------
  // Reading what was written

  /** The tokens of ":" followed by written notes: the colon, then each note's text. */
  lemma {:induction false} NotesTokens(notes: seq<int>)
    ensures Tokens(":" + NotesText(notes)) == [":"] + NoteTokens(notes)
  {
    if notes == [] {
      assert ":" + NotesText(notes) == ":";
      assert NoneIn(":", Whitespace);
      SplitOnNone(":", Whitespace);
    } else {
      var init := notes[..|notes| - 1];
      var last := notes[|notes| - 1];
      NotesTokens(init);
      var head := ":" + NotesText(init);
      assert ":" + NotesText(notes) == head + [' '] + IntStr(last);
      SplitOnSnoc(head, ' ', IntStr(last), Whitespace);
    }
  }

  /** Of the tokens of a written line, the colon is dropped and every non-negative note is kept. */
  lemma {:induction false} KeptWrittenNotes(notes: seq<int>)
    requires forall i :: 0 <= i < |notes| ==> notes[i] >= 0
    ensures KeptNotes([":"] + NoteTokens(notes)) == notes
  {
    var tokens := [":"] + NoteTokens(notes);
    if notes == [] {
      assert !IsDigit(":"[0]);
      assert tokens[..0] == [];
    } else {
      var init := notes[..|notes| - 1];
      var last := notes[|notes| - 1];
      forall i | 0 <= i < |init|
        ensures init[i] >= 0
      {
        assert init[i] == notes[i];
      }
      KeptWrittenNotes(init);
      assert tokens == ([":"] + NoteTokens(init)) + [IntStr(last)];
      KeptWrittenNote([":"] + NoteTokens(init), last);
      assert notes == init + [last];
    }
  }

  /** A token written for a note that is not negative is kept, as that note. */
  lemma KeptWrittenNote(tokens: seq<string>, n: int)
    requires n >= 0
    ensures KeptNotes(tokens + [IntStr(n)]) == KeptNotes(tokens) + [n]
  {
    var t := tokens + [IntStr(n)];
    assert t[..|t| - 1] == tokens && t[|t| - 1] == IntStr(n);
    ContainsOnlyDigitsOfIntStr(n);
    GetIntValueOfIntStr(n);
  }

  /** A written beat line splits at the colon after its beat number. */
  lemma LineTextColon(beat: int, notes: seq<int>)
    ensures var line := LineText(beat, notes);
      && ':' in line
      && FirstIndexIn(line, {':'}) == |IntStr(beat)|
      && line[..|IntStr(beat)|] == IntStr(beat)
      && line[|IntStr(beat)|..] == ":" + NotesText(notes)
  {
    var a, b := IntStr(beat), NotesText(notes);
    assert NoneIn(a, {':'});
    SplitAtFirst(a, ':', b, {':'});
    assert LineText(beat, notes) == a + [':'] + b;
    assert (a + [':'] + b)[|a|] == ':';
  }

  /** The reader finds the beat and all the (non-negative) notes of a written beat line. */
  lemma ReadWrittenLine(beat: int, notes: seq<int>)
    requires forall i :: 0 <= i < |notes| ==> notes[i] >= 0
    ensures ':' in LineText(beat, notes)
    ensures LineBeat(LineText(beat, notes)) == beat && LineNotes(LineText(beat, notes)) == notes
  {
    LineTextColon(beat, notes);
    GetIntValueOfIntStr(beat);
    NotesTokens(notes);
    KeptWrittenNotes(notes);
  }

  /** Reading a written beat line stores its notes at its beat. */
  lemma ReadBeatLine(song: Song, beat: int, notes: seq<int>)
    requires notes != [] && forall i :: 0 <= i < |notes| ==> notes[i] >= 0
    ensures ApplyLine(song, LineText(beat, notes)) == song.(notes := song.notes[beat := notes])
  {
    ReadWrittenLine(beat, notes);
  }

  /** Reading a written tempo line sets the tempo exactly when it is positive. */
  lemma ReadBpmLine(song: Song, bpm: int)
    ensures ApplyLine(song, IntStr(bpm)) == if bpm > 0 then song.(bpm := bpm) else song
  {
    GetIntValueOfIntStr(bpm);
  }

  /** Reading the beat lines written for `keys` stores exactly the non-empty lists among them. */
  lemma {:induction false} ReadWrittenBeats(bpm: int, m: NoteMap, keys: seq<int>)
    requires NoNegativeNotes(m)
    ensures ApplyLines(Song(bpm, map[]), BeatLines(m, keys)) == Song(bpm, NonEmptyAt(m, keys))
  {
    if keys != [] {
      var init := keys[..|keys| - 1];
      var k := keys[|keys| - 1];
      var notes := Get(m, k);
      ReadWrittenBeats(bpm, m, init);
      var before := Song(bpm, NonEmptyAt(m, init));
      if notes != [] {
        var line := LineText(k, notes);
        assert BeatLines(m, keys) == BeatLines(m, init) + [line];
        ApplyLinesConcat(Song(bpm, map[]), BeatLines(m, init), [line]);
        assert ApplyLines(before, [line]) == ApplyLine(before, line) by {
          assert [line][..0] == [];
        }
        assert forall i :: 0 <= i < |notes| ==> notes[i] >= 0 by {
          assert k in m;
        }
        ReadBeatLine(before, k, notes);
      } else {
        assert BeatLines(m, keys) == BeatLines(m, init);
      }
    }
  }

  /** `NonEmptyAt` holds the beats among `keys` that hold notes, and their notes. */
  lemma {:induction false} NonEmptyAtHolds(m: NoteMap, keys: seq<int>)
    ensures forall b :: b in NonEmptyAt(m, keys) <==> b in keys && Get(m, b) != []
    ensures forall b :: b in NonEmptyAt(m, keys) ==> NonEmptyAt(m, keys)[b] == Get(m, b)
  {
    if keys != [] {
      NonEmptyAtHolds(m, keys[..|keys| - 1]);
      assert forall b :: b in keys <==> b in keys[..|keys| - 1] || b == keys[|keys| - 1];
    }
  }

  // ---------------------------------------------------------------------------
  // Exporting

  /** Adding a beat's notes one by one appends them to the beat's list and touches no other beat. */
  lemma {:induction false} AddedNotesAppend(g: NoteMap, beat: int, notes: seq<int>)
    requires notes != []
    ensures AddedNotes(g, beat, notes) == g[beat := Get(g, beat) + notes]
  {
    var init, last := notes[..|notes| - 1], notes[|notes| - 1];
    var before := AddedNotes(g, beat, init);
    assert AddedNotes(g, beat, notes) == before[beat := Get(before, beat) + [last]];
    if init == [] {
      assert before == g;
      assert notes == [last];
    } else {
      AddedNotesAppend(g, beat, init);
      assert Get(before, beat) + [last] == Get(g, beat) + notes;
      UpdateTwice(g, beat, Get(g, beat) + init, Get(g, beat) + notes);
    }
  }

  /** A second update of the same key overrides the first. */
  lemma UpdateTwice(g: NoteMap, k: int, y: seq<int>, x: seq<int>)
    ensures g[k := y][k := x] == g[k := x]
  {
    assert g[k := y][k := x].Keys == g[k := x].Keys;
  }

  /**
   * Adding the notes at distinct `keys` to a grid appends each of those
   * beats' notes after the grid's own notes there.
   */
  lemma {:induction false} ExportedGet(g: NoteMap, m: NoteMap, keys: seq<int>, b: int)
    requires NoDuplicates(keys)
    ensures Get(Exported(g, m, keys), b) == Get(g, b) + (if b in keys then Get(m, b) else [])
  {
    if keys != [] {
      var init, k := keys[..|keys| - 1], keys[|keys| - 1];
      LastIsNew(keys);
      ExportedGet(g, m, init, b);
      ExportedLastGet(g, m, keys, b);
      assert b in keys <==> b in init || b == k by {
        assert keys == init + [k];
      }
      if b == k {
        assert Get(g, b) + [] == Get(g, b);
      } else {
        assert Get(Exported(g, m, init), b) + [] == Get(Exported(g, m, init), b);
      }
    }
  }

  /** At one beat, the last beat exported appends its notes there and nothing elsewhere. */
  lemma ExportedLastGet(g: NoteMap, m: NoteMap, keys: seq<int>, b: int)
    requires keys != []
    ensures var k := keys[|keys| - 1];
      Get(Exported(g, m, keys), b) == Get(Exported(g, m, keys[..|keys| - 1]), b) + (if b == k then Get(m, k) else [])
  {
    ExportedLast(g, m, keys);
    var before := Exported(g, m, keys[..|keys| - 1]);
    assert Get(before, b) + [] == Get(before, b);
  }

  /** The last beat exported appends its notes to the grid's list there and touches no other beat. */
  lemma ExportedLast(g: NoteMap, m: NoteMap, keys: seq<int>)
    requires keys != []
    ensures var k, before := keys[|keys| - 1], Exported(g, m, keys[..|keys| - 1]);
      Exported(g, m, keys) == if Get(m, k) == [] then before else before[k := Get(before, k) + Get(m, k)]
  {
    var k, before := keys[|keys| - 1], Exported(g, m, keys[..|keys| - 1]);
    if Get(m, k) != [] {
      AddedNotesAppend(before, k, Get(m, k));
    }
  }

  /** In a sequence without duplicates the last element is not among the others, which have none either. */
  lemma LastIsNew(keys: seq<int>)
    requires keys != [] && NoDuplicates(keys)
    ensures keys[|keys| - 1] !in keys[..|keys| - 1] && NoDuplicates(keys[..|keys| - 1])
  {
    var init := keys[..|keys| - 1];
    forall i | 0 <= i < |init|
      ensures init[i] != keys[|keys| - 1]
    {
      assert init[i] == keys[i];
    }
  }

  /** Adding the notes at `keys` to a grid creates entries only for the beats among them that hold notes. */
  lemma {:induction false} ExportedKeys(g: NoteMap, m: NoteMap, keys: seq<int>)
    ensures forall b :: b in Exported(g, m, keys) <==> b in g || (b in keys && Get(m, b) != [])
  {
    if keys != [] {
      var init, k := keys[..|keys| - 1], keys[|keys| - 1];
      assert keys == init + [k];
      ExportedKeys(g, m, init);
      var before := Exported(g, m, init);
      if Get(m, k) != [] {
        AddedNotesAppend(before, k, Get(m, k));
      } else {
        assert Exported(g, m, keys) == before;
      }
    }
  }

  /**
   * `exportToNoteGrid` in full: every beat's file notes are appended after
   * the grid's own notes at that beat, and only beats holding notes gain an
   * entry.
   */
  lemma ExportAppends(g: NoteMap, m: NoteMap)
    ensures var e := Exported(g, m, SortedKeys(m.Keys));
      && (forall b :: Get(e, b) == Get(g, b) + Get(m, b))
      && (forall b :: b in e <==> b in g || b in NonEmpty(m))
  {
    var keys := SortedKeys(m.Keys);
    SortedKeysOrdered(m.Keys);
    forall b
      ensures Get(Exported(g, m, keys), b) == Get(g, b) + Get(m, b)
    {
      ExportedGet(g, m, keys, b);
    }
    ExportedKeys(g, m, keys);
  }

  /** Exporting a file into an empty grid gives the grid exactly the file's beats that hold notes. */
  lemma ExportIntoEmpty(m: NoteMap)
    ensures Exported(map[], m, SortedKeys(m.Keys)) == NonEmpty(m)
  {
    var e := Exported(map[], m, SortedKeys(m.Keys));
    var ne := NonEmpty(m);
    forall b
      ensures b in e <==> b in ne
      ensures b in e ==> e[b] == ne[b]
    {
      ExportIntoEmptyAt(m, b);
    }
    assert e.Keys == ne.Keys;
  }

  /** At one beat, exporting into an empty grid gives the file's notes there exactly when it has some. */
  lemma ExportIntoEmptyAt(m: NoteMap, b: int)
    ensures var e := Exported(map[], m, SortedKeys(m.Keys));
      && (b in e <==> b in m && m[b] != [])
      && (b in e ==> e[b] == m[b])
  {
    var keys := SortedKeys(m.Keys);
    var empty: NoteMap := map[];
    SortedKeysOrdered(m.Keys);
    ExportedKeys(empty, m, keys);
    ExportedGet(empty, m, keys, b);
    assert Get(empty, b) == [];
    assert [] + Get(m, b) == Get(m, b);
  }

  // ---------------------------------------------------------------------------
  // Writing and reading back

  /** No written line holds a line break. */
  lemma {:induction false} WrittenLinesHaveNoBreaks(m: NoteMap, keys: seq<int>)
    ensures forall k :: 0 <= k < |BeatLines(m, keys)| ==> NoneIn(BeatLines(m, keys)[k], LineBreaks)
  {
    if keys != [] {
      WrittenLinesHaveNoBreaks(m, keys[..|keys| - 1]);
      NotesTextHasNoBreaks(Get(m, keys[|keys| - 1]));
    }
  }

  lemma {:induction false} NotesTextHasNoBreaks(notes: seq<int>)
    ensures NoneIn(NotesText(notes), LineBreaks)
  {
    if notes != [] {
      NotesTextHasNoBreaks(notes[..|notes| - 1]);
    }
  }

  /**
   * Round trip: reading what `writeToFile` wrote gives back the tempo (when
   * it is positive; otherwise the default) and exactly the beats holding
   * notes, provided no note is negative ("-1" is not all digits and is
   * dropped on reading).
   */
  lemma ParseSerialize(song: Song)
    requires NoNegativeNotes(song.notes)
    ensures Parse(Serialize(song))
         == Song(if song.bpm > 0 then song.bpm else DefaultBpm, NonEmpty(song.notes))
  {
    var m := song.notes;
    var keys := SortedKeys(m.Keys);
    var bpm := if song.bpm > 0 then song.bpm else DefaultBpm;
    ReadSerialized(song);
    ReadTempoFirst(song.bpm, BeatLines(m, keys));
    ReadWrittenBeats(bpm, m, keys);
    NonEmptyAtAll(m);
  }

  /** The file's lines are the tempo line and the beat lines, as written. */
  lemma ReadSerialized(song: Song)
    ensures ReadLines(Serialize(song))
         == [IntStr(song.bpm)] + BeatLines(song.notes, SortedKeys(song.notes.Keys))
  {
    var keys := SortedKeys(song.notes.Keys);
    WrittenLinesHaveNoBreaks(song.notes, keys);
    ReadLinesJoinLines([IntStr(song.bpm)] + BeatLines(song.notes, keys));
  }

  /** Reading the tempo line first leaves the written tempo, or the default when it is not positive. */
  lemma ReadTempoFirst(bpm: int, rest: seq<string>)
    ensures ApplyLines(Song(DefaultBpm, map[]), [IntStr(bpm)] + rest)
         == ApplyLines(Song(if bpm > 0 then bpm else DefaultBpm, map[]), rest)
  {
    var start := Song(DefaultBpm, map[]);
    ApplyLinesConcat(start, [IntStr(bpm)], rest);
    assert ApplyLines(start, [IntStr(bpm)]) == ApplyLine(start, IntStr(bpm)) by {
      assert [IntStr(bpm)][..0] == [];
    }
    ReadBpmLine(start, bpm);
  }

  /** Over all of a map's keys, `NonEmptyAt` is `NonEmpty`. */
  lemma NonEmptyAtAll(m: NoteMap)
    ensures NonEmptyAt(m, SortedKeys(m.Keys)) == NonEmpty(m)
  {
    var keys := SortedKeys(m.Keys);
    SortedKeysOrdered(m.Keys);
    NonEmptyAtHolds(m, keys);
    var e, n := NonEmptyAt(m, keys), NonEmpty(m);
    forall b
      ensures b in e.Keys <==> b in n.Keys
    {
      assert b in keys <==> b in m;
    }
    assert e.Keys == n.Keys;
    forall b | b in e
      ensures e[b] == n[b]
    {
      assert b in m;
    }
  }
}
