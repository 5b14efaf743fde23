# MusicBox editor core, modelled in Dafny

MusicBox is a JUCE editor for music-box paper strips. You click notes onto a
page of scrolling strips. The song plays back one beat per timer tick, and it
is saved as a small text file. This project models the sequential logic at the
heart of the editor and proves properties of it:

- `note_grid.dfy` (module `Grids`): `NoteGrid`, the song data. It is a class
  over a `map<int, seq<int>>` from beat to the notes on that beat, with add,
  remove, toggle and read operations that update the map in place.
- `music_strip.dfy` (module `Strips`): one `MusicStrip`. It holds the
  pixel-to-(note, beat) hit tests with their tolerance and rounding rules,
  their inverses `getNoteX`/`getBeatY`, the listener registry, and
  `mouseDown`, which tells every listener about a click.
- `scrolling_page.dfy` (module `Pages`): `ScrollingPage`. It holds the scroll
  position in quarter strips and the append-only list of strips. It turns a
  strip-local beat into a song beat and toggles that cell of the grid. It also
  computes where each strip is drawn.
- `playback_timer.dfy` (module `Playback`): `PlaybackTimer`, a
  start/stop/tick state machine. The JUCE timer is reduced to a running flag
  and the interval it was armed with. The note player is reduced to a log of
  the note lists it was sent.
- `music_file.dfy` (module `MusicFiles`): `MusicFile`. It covers the line
  parser in the constructor, the text `writeToFile` builds, the tempo
  accessors, and the copy of notes to and from a grid.
- `juce_text.dfy`, `juce_array.dfy` and `arith.dfy`: the library behaviour
  these rely on, written out. This covers `String::getIntValue`,
  `String(int)`, `StringArray::fromTokens`, `File::readLines`,
  `Array::removeAllInstancesOf`/`addIfNotAlreadyThere`/`indexOf`, and C++
  truncating division and float-to-int conversion.

Pixel geometry is exact integer arithmetic. The source computes in `float`. A
note width is w/14 pixels and a beat height h/32 pixels, so x-offsets are
counted in fourteenths of a pixel and y-offsets in thirty-seconds. In those
units every quantity the source computes is a whole number. Where the source
converts to `int` the model truncates toward zero. Where it calls
`std::floor` the model takes the floor.

Where the code and its documentation differ, the model follows the code:

- `addNote` appends duplicates and checks no range. Any int is a note or a
  beat.
- The hit tests keep the LOWER line when a click lies exactly half way between
  two lines. The round-up test is a strict `>`.
- A beat line's note tokens are taken from the text starting AT the colon. So
  "0:3 7" holds only note 7: the token ":3" is not all digits
  (`GluedNoteDropped`).
- `fromTokens` keeps empty tokens, and an empty token passes the digit filter
  and reads as 0. So a hand-edited "0: 3 " (trailing space) holds notes [3, 0]
  (`TrailingSpaceAddsNoteZero`), and "0: 3  7" (two spaces) gains a 0 the same
  way. What the writer produces never has either.
- The writer always puts a space after the colon ("0: 3 7"). What it writes is
  read back in full (`ParseSerialize`).
- `startPlayback` does not reset `beatIndex` itself. It is already 0 because
  every stop zeroes it (`Playback.Consistent`).
- A playback of N beats takes N + 1 ticks. The last tick only stops the timer
  (`PlaybackEnds`).
- `exportToNoteGrid` does not clear the grid first. Each beat's file notes end
  up after the notes the grid already had (`ExportAppends`).
- `getStripBounds` truncates `(index - stripNum) * height` toward zero. So the
  strip cut by the top edge is not exactly one page height from the next
  strip (`StripTopStraddlingTop`).
- `NoteGrid.cpp` defines `toggleNote` as `void` and `getNotes` without the
  `highlight` parameter. The model follows the header, which documents a
  `bool` result and the parameter.
- `getBeatCount`, `getNoteMap`, `isEmpty` and `clear` have no bodies in the
  source. They are specified from their header comments:
  - `getBeatCount` is taken to be one past the last beat holding a note, or
    0 when no beat at 0 or above holds one. This is an interpretation of
    the header comment (see "## Left out").
  - `isEmpty` means no beat holds a note.
  - `clear` empties the map.

## Model

| member | source | states |
|---|---|---|
| Grids.NoteGrid.constructor | Source/NoteGrid.h:109-114 | A new grid holds no notes, and its drawing scale is 0. |
| Grids.Get | Source/NoteGrid.cpp:44-47 | The notes at a beat, the empty list for a beat with no entry (what `operator[]` yields). |
| Grids.Toggled | Source/NoteGrid.cpp:30-40 | The map after a toggle: the note removed everywhere in the beat's list if it holds it, appended otherwise. `ToggleFlips` and `ToggleTwiceRestores` state what this means. |
| Grids.IsBeatCount | Source/NoteGrid.h:70-77 | The count documented for `getBeatCount`: every beat holding a note lies below it, and the beat just below it holds one. `BeatCountUnique` shows it is determined. |
| Grids.NoteGrid.IsEmpty | Source/NoteGrid.h:87-92 | No beat holds a note; entries with empty lists may remain. `EmptyIffBeatCountZero` ties it to the beat count. |
| Grids.NoteGrid.AddNote | Source/NoteGrid.cpp:11-18 | The note is appended to the end of the beat's list, with no duplicate or range check. Every other beat is unchanged. |
| Grids.NoteGrid.RemoveNote | Source/NoteGrid.cpp:22-26 | The beat's list becomes the list with every instance of the note removed. Every other beat is unchanged, and an entry is created if none existed. |
| Grids.NoteGrid.ToggleNote | Source/NoteGrid.h:36-46 | The result is true exactly when the note was absent, so it was added. The map becomes `Toggled`. |
| Grids.NoteGrid.GetNotes | Source/NoteGrid.cpp:44-47 | Returns exactly the stored list, or [] for an untouched beat. The only change is an empty entry left by `operator[]`. |
| Grids.NoteGrid.SetScale | Source/NoteGrid.cpp:52-57 | Stores exactly the given width and height, and changes nothing else. |
| Grids.NoteGrid.GetBeatCount | Source/NoteGrid.h:70-77 | Every beat holding a note is below the count. The beat just below the count holds a note. |
| Grids.NoteGrid.GetNoteMap | Source/NoteGrid.h:79-85 | The copy equals the stored beat-to-notes map. |
| Grids.NoteGrid.Clear | Source/NoteGrid.h:94-97 | Afterwards the map is empty and `IsEmpty()` holds. |
| Grids.ToggleFlips | Source/NoteGrid.cpp:30-40 | Toggling flips whether the beat holds the note. An absent note is appended once. No other beat changes. |
| Grids.ToggleTwiceMembership | Source/NoteGrid.cpp:30-40 | Toggling the same cell twice restores which notes the beat holds. |
| Grids.ToggleTwiceRestores | Source/NoteGrid.cpp:30-40 | If the note was absent, toggling twice gives back exactly the original list. |
| Grids.BeatCountUnique | Source/NoteGrid.h:70-77 | At most one value meets the beat-count description. |
| Grids.EmptyIffBeatCountZero | Source/NoteGrid.h:87-92 | An empty grid has beat count 0. With no negative beats, beat count 0 means the grid is empty. |
| JuceArray.RemoveAllCounts | Source/NoteGrid.cpp:22-26 | `removeAllInstancesOf` leaves no occurrence of the value and keeps the count of every other value. |
| JuceArray.RemoveAll | Source/NoteGrid.cpp:24 | `removeAllInstancesOf`: drops every occurrence and keeps the rest in order. Its meaning is stated by `RemoveAllCounts`, `InRemoveAll` and `RemoveAllConcat`. |
| JuceArray.AddIfAbsent | Source/MusicStrip.cpp:97-100 | `addIfNotAlreadyThere`: appends only a value that is absent. `AddIfAbsentNoDuplicates` states what it keeps. |
| JuceArray.InRemoveAll | Source/MusicStrip.cpp:104-107 | After removal, a value is present exactly when it was present and is not the removed one. |
| JuceArray.RemoveAllAbsent | Source/NoteGrid.cpp:22-26 | Removing an absent value leaves the list unchanged. |
| JuceArray.RemoveAllConcat | Source/NoteGrid.cpp:22-26 | Removal works piecewise over a concatenation, so the remaining values keep their relative order. |
| JuceArray.RemoveAllNoDuplicates | Source/MusicStrip.cpp:104-107 | Removal keeps a duplicate-free listener list duplicate-free. |
| JuceArray.AddIfAbsentNoDuplicates | Source/MusicStrip.cpp:97-100 | `addIfNotAlreadyThere` keeps the list duplicate-free, and the value is afterwards a member. |
| JuceArray.IndexOf | Source/ScrollingPage.cpp:91-98 | Returns -1 exactly when the strip is not in the list. Otherwise it returns the first position holding it. |
| Strips.MusicStrip.constructor | Source/MusicStrip.cpp:12-18 | A strip keeps its `isStart` flag, and it starts with no listeners. |
| Strips.MusicStrip.SetImageBounds | Source/MusicStrip.cpp:146-150 | The staff bounds become the given rectangle. |
| Strips.MusicStrip.AddListener | Source/MusicStrip.cpp:97-100 | The listener is registered at most once, and the registry stays duplicate-free. |
| Strips.MusicStrip.RemoveListener | Source/MusicStrip.cpp:104-107 | Every instance of the listener is removed. The other listeners keep their order. |
| Strips.MusicStrip.MouseDown | Source/MusicStrip.cpp:158-172 | Defined wherever both queries are (a click the band test rejects needs no division). With tolerance w/40, if both the note and the beat resolve, each listener is told once, in registration order. Otherwise nobody is told. A reported note is in 0..14. |
| Strips.HeaderRows | Source/MusicStrip.cpp:125-128 | The beat top lies 8 beat heights below the staff top on a start strip and at the staff top otherwise. `UsableHeight` relates it to the beat count. |
| Strips.BeatCount | Source/MusicStrip.cpp:132-135 | `getBeatCount`: 24 beats on a start strip, 32 otherwise. |
| Strips.NoteX | Source/MusicStrip.cpp:22-30 | `getNoteX`, truncated to int. Its range is stated by `NoteXWithinStaff`, and `ClosestNoteOfNoteX` shows `getClosestNote` inverts it. |
| Strips.BeatY | Source/MusicStrip.cpp:34-42 | `getBeatY`, truncated to int. Its range is stated by `BeatYWithinStaff`, and `ClosestBeatOfBeatY` shows `getClosestBeat` inverts it. |
| Strips.Resolve | Source/MusicStrip.cpp:48-65 | The hit test both queries share: reject outside the tolerance band, round up only past half a cell, reject a residual over the tolerance. Its properties are the `Resolve*` and `HalfCellRuleNearest` lemmas. |
| Strips.ClosestNote | Source/MusicStrip.cpp:46-66 | `getClosestNote`: a click outside the band is -1 before any division, so only an in-band click needs a positive width. What it promises is proved by `ClosestNoteFound` (with a tolerance under half a note width, it returns note k exactly when the click is within maxError of k), `ClosestNoteWithin` (within the tolerance), `ClosestNoteNearest` (nearest line, ties to the lower), `ClosestNoteInRange` (0..14), `ClosestNoteOnLine`, `ClosestNoteHalfway` and `ClosestNoteOfNoteX`. |
| Strips.ClosestBeat | Source/MusicStrip.cpp:70-93 | `getClosestBeat`: a click outside the band is -1 before any division, so only an in-band click needs a positive height. What it promises is proved by `ClosestBeatFound` (with a tolerance under half a beat height, it returns beat k exactly when the click is within maxError of k), `ClosestBeatWithin`, `ClosestBeatNearest`, `ClosestBeatInRange` (0..BeatCount), `ClosestBeatOnLine` and `ClosestBeatOfBeatY`. |
| Strips.NoteXWithinStaff | Source/MusicStrip.cpp:22-30 | `getNoteX` gives -1 outside 0..14. Inside that range it gives a pixel between the staff's left and right edges. |
| Strips.BeatYWithinStaff | Source/MusicStrip.cpp:34-42 | `getBeatY` gives -1 outside 0..BeatCount, and accepts the count itself. Inside that range it gives a pixel between the top of beat 0 and the staff bottom. |
| Strips.UsableHeight | Source/MusicStrip.cpp:117-135 | The header rows plus the beat count fill the staff's 32 rows exactly: 8 + 24 for a start strip, 0 + 32 otherwise. |
| Strips.ResolveWithin | Source/MusicStrip.cpp:53-65 | A line the hit test returns is within the tolerance of the offset. |
| Strips.ResolveChoice | Source/MusicStrip.cpp:56-60 | The hit is the guessed line, or the next line exactly when the residual is strictly more than half a cell. |
| Strips.HalfCellRuleNearest | Source/MusicStrip.cpp:56-60 | The half-cell rule picks a nearest line, and the lower one on a tie. |
| Strips.ResolveNearest | Source/MusicStrip.cpp:53-65 | From a guess with residual in [0, cell), the hit test returns the nearest line, the lower one on a tie. |
| Strips.ResolveOnLine | Source/MusicStrip.cpp:53-65 | An offset exactly on a line inside the extent resolves to that line. |
| Strips.ResolveRoundsUp | Source/MusicStrip.cpp:56-64 | A residual over half a cell whose complement is within the tolerance moves to the next line. |
| Strips.ResolveFound | Source/MusicStrip.cpp:49-64 | The converse of `ResolveWithin`: with a tolerance under half a cell, an offset within the tolerance of a line k in the extent resolves to k. |
| Strips.LeftOfEdgeIsLineZero | Source/MusicStrip.cpp:53-54 | Left of the first line, the only line within a tolerance under half a cell is 0, and the truncated guess is 0. |
| Strips.ResolveNearLine | Source/MusicStrip.cpp:53-65 | An offset less than half a cell short of line k, and within the tolerance, resolves to k. |
| Strips.ResolveHalfCell | Source/MusicStrip.cpp:56-60 | An offset exactly half a cell past line k resolves to k, not k + 1. |
| Strips.ResolveInRange | Source/MusicStrip.cpp:48-65 | With a tolerance under half a cell, a resolved line lies within the extent's lines. |
| Strips.ClosestNoteFound | Source/MusicStrip.h:53-57 | With 0 <= k <= 14 and a tolerance under half a note width, `getClosestNote` returns k if and only if the click is within maxError pixels of note line k. |
| Strips.ClosestNoteWithin | Source/MusicStrip.cpp:53-65 | A returned note n has abs((xPos - x) - n * w/14) <= maxError. |
| Strips.ClosestNoteNearest | Source/MusicStrip.cpp:48-65 | The returned note is the nearest note line, the lower one on a tie: against every line for a click right of the left edge, and against every line from 0 on for a click left of it when the tolerance is under half a note width. |
| Strips.ResolveLeftOfEdge | Source/MusicStrip.cpp:53-60 | Left of the edge, with a tolerance under half a cell, the guess truncates to 0 and a hit can only be line 0. |
| Strips.ClosestNoteInRange | Source/MusicStrip.cpp:48-65 | With a tolerance under half a note width, a returned note lies in 0..14. |
| Strips.MouseToleranceUnderHalfNote | Source/MusicStrip.cpp:160 | The `mouseDown` tolerance w/40 (integer division) is under half a note width. |
| Strips.ClosestNoteOnLine | Source/MusicStrip.cpp:46-66 | A click exactly on note line k, for 0 <= k <= 14, resolves to k. |
| Strips.HalfwayOffset | Source/MusicStrip.cpp:53-56 | A click half way between note lines k and k + 1 has a residual of exactly half a note width. |
| Strips.ClosestNoteHalfway | Source/MusicStrip.cpp:56-60 | A click exactly half way between note lines k and k + 1 resolves to k. |
| Strips.ClosestNoteOfNoteX | Source/MusicStrip.cpp:22-66 | `getClosestNote(getNoteX(k))` is k on a staff at least 27 pixels wide, with a tolerance of at least a pixel. |
| Strips.ClosestBeatFound | Source/MusicStrip.h:67-71 | With 0 <= k <= BeatCount and a tolerance under half a beat height, `getClosestBeat` returns k if and only if the click is within maxError pixels of beat line k, measured from the beat top. |
| Strips.ClosestBeatWithin | Source/MusicStrip.cpp:80-92 | A returned beat is within maxError pixels of the click, measured from the beat top. |
| Strips.ClosestBeatNearest | Source/MusicStrip.cpp:80-92 | The returned beat is the nearest beat line, the lower one on a tie. |
| Strips.ClosestBeatInRange | Source/MusicStrip.cpp:72-92 | With a tolerance under half a beat height, a returned beat lies in 0..BeatCount. |
| Strips.ClosestBeatOnLine | Source/MusicStrip.cpp:70-93 | A click exactly on beat line k, for 0 <= k <= BeatCount, resolves to k. |
| Strips.ClosestBeatOfBeatY | Source/MusicStrip.cpp:34-93 | `getClosestBeat(getBeatY(k))` is k on a staff at least 63 pixels high, with a tolerance of at least a pixel. |
| Strips.BeatYOffset | Source/MusicStrip.cpp:41 | The pixel `getBeatY` gives lies less than one pixel above the exact beat line. |
| Strips.RoundingAsymmetry | Source/MusicStrip.cpp:54-81 | Truncation and floor differ just before the first line. One pixel before line 0, the note test finds note 0 but the beat test finds no beat. |
| Pages.StripTop | Source/ScrollingPage.cpp:127-131 | The strip top is (index - stripNum) * height truncated toward zero: within one pixel of the exact value, on the side of 0. |
| Pages.BeatsBefore | Source/ScrollingPage.cpp:99-103 | The beats held by the strips before a position. `BeatsBeforeClosedForm` gives it in closed form. |
| Pages.GlobalBeat | Source/ScrollingPage.cpp:99-103 | The song beat of a strip-local beat. `GlobalBeatInjective` and `LocateBeat` show the strips partition the song's beats. |
| Pages.ScrollingPage.constructor | Source/ScrollingPage.cpp:35-40 | The page starts at position 0 with a start strip and a middle strip, both reporting to the page, and an empty grid. |
| Pages.ScrollingPage.ButtonClicked | Source/ScrollingPage.cpp:47-75 | Clicks are ignored while animating, and "up" is ignored at the top. Otherwise the position moves one quarter. One middle strip is appended exactly when the new position reaches size - 2. Existing strips never change, and the position stays below size - 1. |
| Pages.ScrollingPage.AppendStrip | Source/ScrollingPage.cpp:66-70 | One fresh middle strip, listened to only by the page, is added at the end. The earlier strips are kept. |
| Pages.ScrollingPage.NoteClicked | Source/ScrollingPage.cpp:88-105 | A click from a strip not on the page changes nothing. Otherwise exactly the cell (note, beat + beats of earlier strips) is toggled. |
| Pages.ScrollingPage.GetStripBounds | Source/ScrollingPage.cpp:127-131 | The bounds have x = 0, width = the up button's x, height = the page height, and y = the truncated (index - stripNum) * height. |
| Pages.BeatsBeforeClosedForm | Source/ScrollingPage.cpp:99-103 | Strip i starts at song beat 0 when i = 0, and at 24 + 32 * (i - 1) otherwise. |
| Pages.BoundaryMeetsNext | Source/ScrollingPage.cpp:99-103 | The bottom line of strip i and beat 0 of strip i + 1 are the same song beat. |
| Pages.GlobalBeatInjective | Source/ScrollingPage.cpp:99-103 | Two different cells of the strips never map to the same song beat. |
| Pages.LocateBeat | Source/ScrollingPage.cpp:99-103 | Every song beat the strips hold is a cell of some strip, so the strips leave no gaps. |
| Pages.StripTopSpacing | Source/ScrollingPage.cpp:127-131 | Two neighbouring strips on the same side of the top edge are exactly one page height apart. |
| Pages.StripTopStraddlingTop | Source/ScrollingPage.cpp:127-131 | The strip cut by the top edge breaks that spacing. At a quarter strip down on a 10-pixel page, strips 0 and 1 start at -2 and 7. |
| Playback.NotePlayer.PlayNotes | Source/Audio/PlaybackTimer.cpp:48-51 | The player's log gains exactly the note list it was sent. |
| Arith.CDiv | Source/Audio/PlaybackTimer.cpp:61 | C++ `int` division, truncating toward zero. `CDivResidual` bounds its remainder and `CDivOfNatural` matches it to the floor on natural numbers. |
| Arith.Trunc | Source/MusicStrip.cpp:160-162 | The `float`-to-`int` conversion of the click position: the whole part, taken toward zero. |
| Arith.CDivResidual | Source/Audio/PlaybackTimer.cpp:61 | The remainder of a truncating division by a positive int lies in [0, c) for a natural dividend and in (-c, 0] for a negative one. |
| Playback.MsFromBpm | Source/Audio/PlaybackTimer.cpp:59-62 | 36000 / bpm truncated toward zero. For positive bpm it is the largest interval whose product with bpm stays within 36000. |
| Playback.Stopped | Source/Audio/PlaybackTimer.cpp:31-37 | The state `stopPlayback` leaves. `StopIdempotent` and `StepsKeepConsistent` state its properties. |
| Playback.Started | Source/Audio/PlaybackTimer.cpp:15-29 | The state `startPlayback` leaves with a grid. `StepsKeepConsistent` shows it starts at beat 0 with consistent fields. |
| Playback.Ticked | Source/Audio/PlaybackTimer.cpp:39-57 | The state one tick leaves, re-armed at the beat interval raised to at least 1 ms as JUCE arms it. `RunVisitsBeats` and `PlaybackEnds` state what a run of ticks does. |
| Playback.Run | Source/Audio/PlaybackTimer.cpp:39-57 | A run of ticks. `RunLast` orders them, and `PlaybackEnds` shows N + 1 ticks end the playback. |
| Playback.PlaybackTimer.constructor | Source/Audio/PlaybackTimer.h:24-28 | A new timer is stopped, has no grid, and sits at beat 0 of 0. |
| Playback.PlaybackTimer.StartTimer | Source/Audio/PlaybackTimer.cpp:28 | The timer runs, armed with the given interval raised to at least 1 ms, as `juce::Timer::startTimer` does. |
| Playback.PlaybackTimer.StopTimer | Source/Audio/PlaybackTimer.cpp:33 | The timer stops. |
| Playback.PlaybackTimer.StartPlayback | Source/Audio/PlaybackTimer.cpp:15-29 | A null grid changes nothing. Otherwise a running playback is stopped, and then the grid is attached with its beat count, the beat interval is set and a 1 ms tick is armed, starting from beat 0. |
| Playback.PlaybackTimer.StopPlayback | Source/Audio/PlaybackTimer.cpp:31-37 | The timer is stopped, the grid is dropped, and beatIndex = numBeats = 0. |
| Playback.PlaybackTimer.TimerCallback | Source/Audio/PlaybackTimer.cpp:39-57 | Past the last beat the tick stops playback. Otherwise non-empty notes of the current beat are sent to the player, the beat advances by one, and the timer is re-armed at the beat interval (at least 1 ms). |
| Playback.PlaybackTimer.Dispose | Source/Audio/PlaybackTimer.cpp:7-13 | A running timer is stopped. A stopped one is left as it was. |
| Playback.StepsKeepConsistent | Source/Audio/PlaybackTimer.cpp:15-57 | Start, stop and tick keep the fields consistent. In particular, a stopped timer is at beat 0 of 0, and a start leaves beatIndex = 0. |
| Playback.StopIdempotent | Source/Audio/PlaybackTimer.cpp:31-37 | Stopping twice is stopping once. |
| Playback.RunVisitsBeats | Source/Audio/PlaybackTimer.cpp:39-57 | From a start, the first k ticks visit beats 0..k-1 once each, in order. They send the player exactly the non-empty note lists, and keep the timer armed at the beat interval (at least 1 ms). |
| Playback.RunLast | Source/Audio/PlaybackTimer.cpp:39-57 | The ticks happen one after the other: tick k + 1 acts on the state left by the first k. |
| Playback.PlaybackEnds | Source/Audio/PlaybackTimer.cpp:39-57 | A playback of N beats stops on tick N + 1, with the grid dropped, the fields zeroed, and the player having received beats 0..N-1 in order. |
| Playback.DefaultTempoInterval | Source/Audio/PlaybackTimer.cpp:59-62 | At the default 60 beats per minute a beat lasts 600 ms. |
| JuceText.IntStr | Source/MusicFile.cpp:142-150 | `String(int)` is non-empty and contains no whitespace, colon or line break. |
| JuceText.GetIntValue | Source/MusicFile.cpp:74 | `String::getIntValue`. `GetIntValueOfIntStr` and `GetIntValueOfDigits` state what it reads. |
| JuceText.ContainsOnlyDigits | Source/MusicFile.cpp:62 | `containsOnly("0123456789")`, true of the empty string. `ContainsOnlyDigitsOfIntStr` states which written numbers pass. |
| JuceText.Tokens | Source/MusicFile.cpp:58-59 | `StringArray::fromTokens(s, false)`, empty tokens included. `GluedTokens` and `NotesTokens` state what it gives on the lines that matter. |
| JuceText.ReadLines | Source/MusicFile.cpp:49-50 | `File::readLines`. `ReadLinesJoinLines` shows it undoes the writer's joining. |
| JuceText.FirstIndexIn | Source/MusicFile.cpp:55 | The index is that of the first separator, and no separator lies before it. |
| JuceText.SplitOn | Source/MusicFile.cpp:58-59 | No piece contains a separator, and there is at least one piece. |
| JuceText.DigitsValueOfNatStr | Source/MusicFile.cpp:142-150 | Reading the digits of a natural number gives the number back. |
| JuceText.DigitPrefixOfDigits | Source/MusicFile.cpp:64 | The digit run of an all-digit string is the whole string. |
| JuceText.GetIntValueOfIntStr | Source/MusicFile.cpp:135 | `getIntValue(String(n))` is n, for every n. |
| JuceText.GetIntValueOfDigits | Source/MusicFile.cpp:62-64 | An all-digit token reads as its non-negative digit value (0 for the empty token). |
| JuceText.ContainsOnlyDigitsOfIntStr | Source/MusicFile.cpp:62 | `String(n)` passes `containsOnly("0123456789")` exactly when n >= 0. |
| JuceText.FirstIndexInPrefix | Source/MusicFile.cpp:55 | A separator in a prefix is found there, whatever follows. |
| JuceText.FirstIndexInAt | Source/MusicFile.cpp:55 | A separator at k with none before it is the first separator. |
| JuceText.SplitAtFirst | Source/MusicFile.cpp:55-59 | Splitting at the first separator gives back the prefix, and the rest starting at the separator. |
| JuceText.SplitOnNone | Source/MusicFile.cpp:58-59 | A string without separators is one token. |
| JuceText.SplitOnCons | Source/MusicFile.cpp:58-59 | A leading separator-free piece and a separator split off as the first token. |
| JuceText.SplitOnSnoc | Source/MusicFile.cpp:58-59 | A trailing separator and a separator-free piece add that piece as the last token. |
| JuceText.ReadLinesJoinLines | Source/MusicFile.cpp:49-50 | `readLines` gives back the lines a newline-joined text was built from, when none holds a line break. |
| JuceText.JoinLinesStart | Source/MusicFile.cpp:135-153 | The joined text starts with the first line. |
| JuceText.JoinLinesNoneIn | Source/MusicFile.cpp:135-153 | Joining lines adds no character but '\n'. |
| JuceText.LinesOfSplitOn | Source/MusicFile.cpp:49-50 | Without '\r', reading lines is splitting at '\n'. |
| JuceText.JoinLinesSplitOn | Source/MusicFile.cpp:135-153 | Splitting a newline-joined text gives back its lines. |
| JuceText.JoinLinesSnoc | Source/MusicFile.cpp:152-153 | Adding a line appends "\n" and the line to the text. |
| MusicFiles.KeptNotes | Source/MusicFile.cpp:60-66 | The notes kept from a beat line's tokens are never negative. |
| MusicFiles.LineBeat | Source/MusicFile.cpp:55-56 | The beat of a beat line: the value of the text before its first ':'. `ReadWrittenLine` shows it reads back a written beat. |
| MusicFiles.LineNotes | Source/MusicFile.cpp:57-66 | The notes of a beat line, from the text starting at its first ':'. `GluedNoteDropped` and `ReadWrittenLine` state what it keeps. |
| MusicFiles.ApplyLine | Source/MusicFile.cpp:53-79 | One line read. `LineSetsBpm`, `LineKeepsBpm`, `LineSetsBeat` and `LineKeepsBeat` state its effect. |
| MusicFiles.ApplyLines | Source/MusicFile.cpp:51-80 | The lines read in order. `ParsedBpmIsLast` and `ParsedBeatIsLast` state which line wins. |
| MusicFiles.Parse | Source/MusicFile.cpp:44-81 | What the constructor reads from a file's text, from tempo 60 and no notes. `ParseSerialize` relates it to the writer. |
| MusicFiles.SortedKeys | Source/MusicFile.h:82 | The `std::map`'s iteration order. `SortedKeysOrdered` shows it is strictly ascending and complete. |
| MusicFiles.LineText | Source/MusicFile.cpp:142-151 | A written beat line. `ReadWrittenLine` shows the reader gets back its beat and notes. |
| MusicFiles.BeatLines | Source/MusicFile.cpp:136-154 | The written beat lines, skipping empty beats. `ReadWrittenBeats` shows they read back as the non-empty beats. |
| MusicFiles.Serialize | Source/MusicFile.cpp:133-157 | The text `writeToFile` writes. `ParseSerialize` shows reading it gives back the song. |
| MusicFiles.Minimum | Source/MusicFile.h:82 | The least key of a non-empty key set is in the set and is at most every key. |
| MusicFiles.SortedKeysOrdered | Source/MusicFile.h:82 | The keys of the `std::map` are listed each once, in strictly ascending order. |
| MusicFiles.AddNotesAt | Source/MusicFile.cpp:121-126 | `addNote` is called for each note of the list, in order. |
| MusicFiles.WriteBeatLine | Source/MusicFile.cpp:142-151 | The line built is the beat, a colon, and " n" for each note. The `length() > 1` test always passes. |
| MusicFiles.MusicFile.constructor | Source/MusicFile.cpp:44-86 | The text of an existing file is read line by line into `Parse`. With no file and no write access the path is cleared. Otherwise the tempo is 60 and there are no notes. |
| MusicFiles.MusicFile.GetBPM | Source/MusicFile.cpp:95-98 | `getBPM` reads the stored tempo. `SetBPM`'s contract shows it returns the value last set. |
| MusicFiles.MusicFile.SetBPM | Source/MusicFile.cpp:102-105 | `getBPM` then returns the value set. |
| MusicFiles.MusicFile.ImportNoteGrid | Source/MusicFile.cpp:109-112 | The file's notes become the grid's map. |
| MusicFiles.MusicFile.ExportToNoteGrid | Source/MusicFile.cpp:116-129 | Every note of every non-empty beat is added to the grid, in ascending beat order. |
| MusicFiles.MusicFile.WriteToFile | Source/MusicFile.cpp:133-157 | The text written is `Serialize` of the tempo and notes. |
| MusicFiles.LineTextSnoc | Source/MusicFile.cpp:144-151 | Each further note adds a space and the note's text to the line. |
| MusicFiles.WrittenSnoc | Source/MusicFile.cpp:136-154 | Each further beat adds "\n" and its line, or nothing when the beat has no notes. |
| MusicFiles.ApplyLinesConcat | Source/MusicFile.cpp:51-80 | Lines are read one after the other: reading a + b is reading b after a. |
| MusicFiles.ParsedBpmIsLast | Source/MusicFile.cpp:72-79 | The tempo is the value of the last line without ':' whose value is positive. |
| MusicFiles.BpmKeptWithoutBpmLine | Source/MusicFile.cpp:72-79 | Lines that do not set the tempo keep it. |
| MusicFiles.LineSetsBpm | Source/MusicFile.cpp:74-78 | A line without ':' whose value is positive sets the tempo to that value. |
| MusicFiles.LineKeepsBpm | Source/MusicFile.cpp:72-79 | Any other line keeps the tempo. |
| MusicFiles.ParsedBeatIsLast | Source/MusicFile.cpp:67-70 | A beat's notes are those of the last line for that beat that keeps any notes. |
| MusicFiles.BeatKeptWithoutBeatLine | Source/MusicFile.cpp:53-71 | Lines that store nothing at a beat leave that beat as it was. |
| MusicFiles.LineSetsBeat | Source/MusicFile.cpp:67-70 | A beat line with kept notes replaces the beat's list. |
| MusicFiles.LineKeepsBeat | Source/MusicFile.cpp:53-71 | Any other line leaves the beat as it was. |
| MusicFiles.GluedNoteDropped | Source/MusicFile.cpp:55-66 | "0:3 7" is a line for beat 0 holding only note 7, because the token ":3" glued to the colon is dropped. |
| MusicFiles.GluedSplit | Source/MusicFile.cpp:55-59 | In "0:3 7" the colon is at index 1, the beat text is "0" and the note text is ":3 7". |
| MusicFiles.GluedTokens | Source/MusicFile.cpp:58-59 | ":3 7" splits into the tokens ":3" and "7". |
| MusicFiles.GluedTokensKept | Source/MusicFile.cpp:60-66 | Of ":3" and "7" only 7 is kept. |
| MusicFiles.TrailingSpaceAddsNoteZero | Source/MusicFile.cpp:55-66 | "0: 3 " is a line for beat 0 holding notes [3, 0], because the empty token after the trailing space passes the digit filter and reads as 0. |
| MusicFiles.TrailingSpaceSplit | Source/MusicFile.cpp:55-59 | In "0: 3 " the colon is at index 1, the beat text is "0" and the note text is ": 3 ". |
| MusicFiles.TrailingSpaceTokens | Source/MusicFile.cpp:58-59 | ": 3 " tokenises to ":", "3" and an empty token. |
| MusicFiles.ColonThreeTokens | Source/MusicFile.cpp:58-59 | ": 3" splits into ":" and "3". |
| MusicFiles.TrailingSpaceTokensKept | Source/MusicFile.cpp:60-66 | Of ":", "3" and "", the notes kept are 3 and 0. |
| MusicFiles.NotesTokens | Source/MusicFile.cpp:144-151 | The note text of a written line after the colon splits into a lone ":" and then each note's text. |
| MusicFiles.KeptWrittenNotes | Source/MusicFile.cpp:58-66 | From those tokens, the reader keeps exactly the written non-negative notes. |
| MusicFiles.KeptWrittenNote | Source/MusicFile.cpp:60-66 | The token `String(n)` of a note n >= 0 is kept, as n. |
| MusicFiles.LineTextColon | Source/MusicFile.cpp:142-143 | The first colon of a written line comes right after the beat's text. |
| MusicFiles.ReadWrittenLine | Source/MusicFile.cpp:53-66 | A written line reads back as its beat and its non-negative notes. |
| MusicFiles.ReadBeatLine | Source/MusicFile.cpp:53-71 | Reading a written line with notes stores exactly those notes at its beat. |
| MusicFiles.ReadBpmLine | Source/MusicFile.cpp:72-79 | Reading the written tempo line sets the tempo when it is positive, and otherwise changes nothing. |
| MusicFiles.ReadWrittenBeats | Source/MusicFile.cpp:51-80 | Reading the written beat lines rebuilds exactly the non-empty beats among the listed keys. |
| MusicFiles.NonEmptyAtHolds | Source/MusicFile.cpp:136-141 | The beats written for a key list are exactly the listed beats holding notes, with their notes. |
| MusicFiles.AddedNotesAppend | Source/MusicFile.cpp:123-126 | Adding notes one by one appends the whole list to the beat. |
| MusicFiles.ExportedGet | Source/MusicFile.cpp:116-129 | After export over distinct keys, each beat holds the grid's notes followed by the file's notes for that beat. |
| MusicFiles.ExportedLast | Source/MusicFile.cpp:118-128 | Exporting one more beat appends its notes, or changes nothing when it has none. |
| MusicFiles.ExportedLastGet | Source/MusicFile.cpp:118-128 | At one beat, exporting one more beat appends its notes there and nowhere else. |
| MusicFiles.ExportedKeys | Source/MusicFile.cpp:116-129 | After export the grid has an entry for a beat exactly when it had one or the file has notes there. |
| MusicFiles.ExportAppends | Source/MusicFile.cpp:116-129 | After `exportToNoteGrid`, every beat holds the grid's old notes followed by the file's notes, and no other beat gains an entry. |
| MusicFiles.ExportIntoEmpty | Source/MusicFile.cpp:116-129 | Exporting into an empty grid gives exactly the file's non-empty beats. |
| MusicFiles.ExportIntoEmptyAt | Source/MusicFile.cpp:116-129 | At one beat, exporting into an empty grid gives the file's notes exactly when it has some. |
| MusicFiles.WrittenLinesHaveNoBreaks | Source/MusicFile.cpp:142-153 | No written beat line contains a line break. |
| MusicFiles.NotesTextHasNoBreaks | Source/MusicFile.cpp:144-151 | The note text contains no line break. |
| MusicFiles.ParseSerialize | Source/MusicFile.cpp:51-154 | Reading what `writeToFile` writes gives back the tempo (60 if it was not positive) and every non-empty beat's notes exactly, when no note is negative. |
| MusicFiles.ReadSerialized | Source/MusicFile.cpp:135-154 | `readLines` of the written text gives the tempo line, then the beat lines in ascending beat order. |
| MusicFiles.ReadTempoFirst | Source/MusicFile.cpp:72-79 | The leading tempo line sets the tempo when positive, and otherwise the default 60 stays. |
| MusicFiles.NonEmptyAtAll | Source/MusicFile.cpp:136-141 | Over all keys in ascending order, the beats written are exactly the beats holding notes. |

## Left out

- Drawing and layout are not modelled: `NoteGrid::paint`, `MusicStrip::paint`/`resized`, `ScrollingPage::resized`, the `Animator` transitions, and the new strip's `setBounds` and grid resize in `buttonClicked`. `SetImageBounds` stands for the result of `resized`.
- Highlighting and the beat colours are drawing state. `getNotes`'s `highlight` flag changes nothing in the model.
- Whether an animation is running comes from the animation library. It is an input to `ButtonClicked`.
- The page height and the up button's x are inputs to `GetStripBounds`, because they come from the layout.
- File access is not modelled. The constructor is given the file's text (or None for no file) and whether the path is writable. `WriteToFile` returns the text instead of writing it, so the `bool` result of `replaceWithText` is not modelled.
- `MusicFile::openFile` (a dialog) and `validFile` (a file-system query) are not part of this model. Neither are the SVG constants, which no routine shown uses.
- The audio output is reduced to the log of note lists sent to `playNotes`. Device handling and mixing are not part of this model.
- The JUCE timer's real time is not modelled. A tick is a call of `TimerCallback`, made only while the timer runs, and the timer is its running flag and armed interval.
- `frequency` has no initial value in the source. The model leaves it unconstrained until `StartPlayback` sets it, and proves nothing about reading it earlier.
- Access control cannot be expressed here: `Listener::noteClicked` being callable only by a strip, `timerCallback` being private, and the up and down buttons being the only way to scroll. `MouseDown` returns the notifications it makes instead of calling the listeners, and `NoteClicked` is the page's reaction to one of them.
- Floating point is replaced by exact arithmetic in scaled integer units (see above). Rounding of `float` itself is not modelled.
- 32-bit overflow is not modelled, because integers are unbounded here: of `getIntValue` on long digit runs, of the beat sum in `noteClicked`, and of pixel products.
- Whitespace outside ASCII is not modelled, for `getIntValue` and `fromTokens`.
- Strips.ClosestNote: requires a positive width only for a click inside the band, within maxError of [x, x + w]. On the zero-width staff a strip has before its first layout, only those clicks reach the division at MusicStrip.cpp:54, which divides by zero and converts the result to `int` (undefined behaviour). Every other click is -1, as in the source.
- Strips.ClosestBeat: requires a positive height only for a click inside the band, within maxError of the beat rows. On a zero-height staff only those clicks reach the division at MusicStrip.cpp:80.
- Strips.MusicStrip.MouseDown: requires what both queries require, so only a click inside the band of a zero-width or zero-height staff is excluded.
- Playback.PlaybackTimer.StartPlayback: requires bpm != 0 when a grid is given. The source then divides by zero.
- Playback.MsFromBpm: requires bpm != 0, because the source's integer division by zero is undefined.
- Grids.NoteGrid.GetBeatCount: the source has no body, so the count is an interpretation of the header comment ("the number of beats it would take to completely play back the stored notes, plus one"). The model takes one past the last beat holding a note, so that a playback visits every note and no silent beat after it. It rejects the literal reading "(last beat + 1) + 1". Beats below 0 are never counted.
