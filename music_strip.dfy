/**
 * MusicStrip: one page of music box paper. Its staff image spans 14 note
 * widths across and 32 beat heights down; a start strip spends its first 8
 * rows on a header and holds 24 beats, a middle strip holds 32.
 *
 * The geometry queries are const arithmetic on the staff bounds
 * (`imageBounds`), so they are functions of the bounds and of `isStart`.
 * The source computes them in `float`; the model computes the same
 * quantities exactly. A note width is w/14 pixels and a beat height h/32,
 * so x-offsets are counted in fourteenths of a pixel and y-offsets in
 * thirty-seconds of a pixel, where both become whole numbers: a note is
 * then `w` units wide and a beat `h` units high. Where the source converts
 * a float to `int` the model truncates toward zero (`CDiv`); where it calls
 * `std::floor` the model takes the floor (Dafny's `/` by a positive int).
 */
module Strips {
  import opened Arith
  import opened JuceArray

  /** `juce::Rectangle<int>`. */
  datatype Rect = Rect(x: int, y: int, w: int, h: int)

  /** A strip telling one of its listeners that a note cell was clicked. */
  datatype NoteClick = NoteClick(listener: object, strip: MusicStrip, note: int, beat: int)

  /** Beat rows taken by the header at the top of a start strip. */
  function HeaderRows(isStart: bool): int {
    if isStart then 8 else 0
  }

  /** `getBeatCount`. */
  function BeatCount(isStart: bool): int {
    if isStart then 24 else 32
  }

  /** `getNoteX`: x + note * (w / 14) as an int, or -1 for a note outside 0..14. */
  function NoteX(b: Rect, note: int): int {
    if note < 0 || note > 14 then -1
    else CDiv(14 * b.x + b.w * note, 14)
  }

  /**
   * `getBeatY`: the beat top plus beat * (h / 32) as an int, or -1 for a
   * beat outside 0..BeatCount (the count itself is accepted).
   */
  function BeatY(isStart: bool, b: Rect, beat: int): int {
    if beat < 0 || beat > BeatCount(isStart) then -1
    else CDiv(32 * b.y + b.h * (HeaderRows(isStart) + beat), 32)
  }

  /** The band the hit test accepts before it divides: within `tolerance` of [0, extent]. */
  predicate InBand(offset: int, extent: int, tolerance: int) {
    -tolerance <= offset <= extent + tolerance
  }

  /**
   * The hit test shared by `getClosestNote` and `getClosestBeat`, in units
   * where a cell is `cell` long: an offset more than `tolerance` outside
   * [0, extent] hits nothing (-1); otherwise, from the first guess `guess`,
   * move up one line if the residual is strictly more than half a cell,
   * then give up (-1) if the residual still exceeds the tolerance.
   */
  function Resolve(offset: int, extent: int, cell: int, guess: int, tolerance: int): int {
    if !InBand(offset, extent, tolerance) then -1
    else
      var error := offset - cell * guess;
      if 2 * error > cell then
        if cell - error > tolerance then -1 else guess + 1
      else
        if error > tolerance then -1 else guess
  }

  /**
   * Where `getClosestNote` is defined: the click is rejected by the band
   * test, or the staff has a positive width to divide by. A click inside the
   * band of a staff of width 0 (as before the first layout) divides by zero.
   */
  predicate NoteQueryDefined(b: Rect, xPos: int, maxError: int) {
    b.w > 0 || !InBand(14 * (xPos - b.x), 14 * b.w, 14 * maxError)
  }

  /**
   * `getClosestNote`, in fourteenths of a pixel: a click outside the band
   * is rejected before any division; otherwise the first guess is the
   * quotient truncated toward zero (the `int` conversion).
   */
  function ClosestNote(b: Rect, xPos: int, maxError: int): int
    requires NoteQueryDefined(b, xPos, maxError)
  {
    var xOffset := 14 * (xPos - b.x);
    if !InBand(xOffset, 14 * b.w, 14 * maxError) then -1
    else Resolve(xOffset, 14 * b.w, b.w, CDiv(xOffset, b.w), 14 * maxError)
  }

  /**
   * Where `getClosestBeat` is defined: the click is rejected by the band
   * test, or the staff has a positive height to divide by.
   */
  predicate BeatQueryDefined(isStart: bool, b: Rect, yPos: int, maxError: int) {
    b.h > 0 || !InBand(32 * (yPos - b.y) - b.h * HeaderRows(isStart), 32 * b.h - b.h * HeaderRows(isStart), 32 * maxError)
  }

  /**
   * `getClosestBeat`, in thirty-seconds of a pixel: offsets are measured
   * from the top of beat 0 and bounded by the height below the header; a
   * click outside the band is rejected before any division; otherwise the
   * first guess is the floor of the quotient.
   */
  function ClosestBeat(isStart: bool, b: Rect, yPos: int, maxError: int): int
    requires BeatQueryDefined(isStart, b, yPos, maxError)
  {
    var yOffset := 32 * (yPos - b.y) - b.h * HeaderRows(isStart);
    var stripHeight := 32 * b.h - b.h * HeaderRows(isStart);
    if !InBand(yOffset, stripHeight, 32 * maxError) then -1
    else Resolve(yOffset, stripHeight, b.h, yOffset / b.h, 32 * maxError)
  }

  class MusicStrip {
    // Whether this is the first strip in a sequence; fixed at construction.
    const isStart: bool
    // The music staff bounds within the component.
    var imageBounds: Rect
    // All registered listener objects.
    var listeners: seq<object>

    ghost predicate Valid()
      reads this
    {
      NoDuplicates(listeners)
    }

    constructor (isStart: bool)
      ensures this.isStart == isStart && imageBounds == Rect(0, 0, 0, 0) && listeners == []
      ensures Valid()
    {
      this.isStart := isStart;
      imageBounds := Rect(0, 0, 0, 0);
      listeners := [];
    }

    /** The effect of `resized()` on the model: new staff bounds (their computation is layout). */
    method SetImageBounds(bounds: Rect)
      modifies this`imageBounds
      ensures imageBounds == bounds
    {
      imageBounds := bounds;
    }

    /** `addListener`: register once; a listener already registered is not added again. */
    method AddListener(listener: object)
      requires Valid()
      modifies this`listeners
      ensures Valid() && listener in listeners
      ensures listeners == AddIfAbsent(old(listeners), listener)
    {
      AddIfAbsentNoDuplicates(listeners, listener);
      listeners := AddIfAbsent(listeners, listener);
    }

    /** `removeListener`: unregister every instance; the others keep their order. */
    method RemoveListener(listener: object)
      requires Valid()
      modifies this`listeners
      ensures Valid() && listener !in listeners
      ensures listeners == RemoveAll(old(listeners), listener)
    {
      RemoveAllNoDuplicates(listeners, listener);
      InRemoveAll(listeners, listener, listener);
      listeners := RemoveAll(listeners, listener);
    }

    /**
     * `mouseDown`: the event position is converted to int, and with a
     * tolerance of a fortieth of the staff width the click is resolved to a
     * (note, beat) cell; if both resolve, every registered listener is told
     * once, in registration order. A reported note is always 0..14.
     */
    method MouseDown(eventX: real, eventY: real) returns (clicks: seq<NoteClick>)
      requires NoteQueryDefined(imageBounds, Trunc(eventX), CDiv(imageBounds.w, 40))
      requires BeatQueryDefined(isStart, imageBounds, Trunc(eventY), CDiv(imageBounds.w, 40))
      ensures
        var maxError := CDiv(imageBounds.w, 40);
        var note := ClosestNote(imageBounds, Trunc(eventX), maxError);
        var beat := ClosestBeat(isStart, imageBounds, Trunc(eventY), maxError);
        if note != -1 && beat != -1 then
          |clicks| == |listeners| &&
          forall i :: 0 <= i < |clicks| ==> clicks[i] == NoteClick(listeners[i], this, note, beat)
        else
          clicks == []
      ensures forall i :: 0 <= i < |clicks| ==> 0 <= clicks[i].note <= 14
    {
      var maxError := CDiv(imageBounds.w, 40);
      var note := ClosestNote(imageBounds, Trunc(eventX), maxError);
      var beat := ClosestBeat(isStart, imageBounds, Trunc(eventY), maxError);
      if imageBounds.w > 0 {
        MouseToleranceUnderHalfNote(imageBounds.w);
        ClosestNoteInRange(imageBounds, Trunc(eventX), maxError);
      }
      clicks := [];
      if note != -1 && beat != -1 {
        for i := 0 to |listeners|
          invariant |clicks| == i
          invariant forall k :: 0 <= k < i ==> clicks[k] == NoteClick(listeners[k], this, note, beat)
        {
          clicks := clicks + [NoteClick(listeners[i], this, note, beat)];
        }
      }
    }
  }

  // ---------------------------------------------------------------------------
  // The shared hit test

  /** A line that the hit test returns is within the tolerance of the offset. */
  lemma ResolveWithin(offset: int, extent: int, cell: int, guess: int, tolerance: int)
    requires cell > 0
    requires var e := offset - cell * guess; e < cell && (0 <= e || offset <= e)
    ensures var n := Resolve(offset, extent, cell, guess, tolerance);
      n != -1 ==> Abs(offset - cell * n) <= tolerance
  {
    assert offset - cell * (guess + 1) == offset - cell * guess - cell;
  }

  /** A hit is the guess or the line above it, the line above exactly when the residual is more than half a cell. */
  lemma ResolveChoice(offset: int, extent: int, cell: int, guess: int, tolerance: int)
    ensures var n := Resolve(offset, extent, cell, guess, tolerance);
      var e := offset - cell * guess;
      n == -1 || (n == guess && 2 * e <= cell) || (n == guess + 1 && 2 * e > cell)
  {
  }

  /**
   * With the residual of `guess` in [0, cell), the line chosen by the
   * half-cell rule is at least as close as any other line, and strictly
   * closer than any line below it.
   */
  lemma HalfCellRuleNearest(offset: int, cell: int, guess: int, n: int, j: int)
    requires cell > 0
    requires var e := offset - cell * guess;
      0 <= e < cell && ((n == guess && 2 * e <= cell) || (n == guess + 1 && 2 * e > cell))
    ensures Abs(offset - cell * n) <= Abs(offset - cell * j)
    ensures Abs(offset - cell * n) == Abs(offset - cell * j) && j != n ==> n < j
  {
    var e := offset - cell * guess;
    var dj := offset - cell * j;
    if n == guess {
      assert offset - cell * n == e;
    } else {
      assert offset - cell * n == e - cell;
    }
    if j >= guess + 2 {
      MulMono(cell, guess + 2, j);
      assert dj <= e - 2 * cell;
    } else if j == guess + 1 {
      assert dj == e - cell;
    } else if j == guess {
      assert dj == e;
    } else {
      MulMono(cell, j, guess - 1);
      assert dj >= e + cell;
    }
  }

  /** From a guess with residual in [0, cell), the hit test picks the nearest line, the lower one on a tie. */
  lemma ResolveNearest(offset: int, extent: int, cell: int, guess: int, tolerance: int, j: int)
    requires cell > 0
    requires 0 <= offset - cell * guess < cell
    requires Resolve(offset, extent, cell, guess, tolerance) != -1
    ensures var n := Resolve(offset, extent, cell, guess, tolerance);
      && Abs(offset - cell * n) <= Abs(offset - cell * j)
      && (Abs(offset - cell * n) == Abs(offset - cell * j) && j != n ==> n < j)
  {
    ResolveChoice(offset, extent, cell, guess, tolerance);
    HalfCellRuleNearest(offset, cell, guess, Resolve(offset, extent, cell, guess, tolerance), j);
  }

  /** An offset exactly on line k, inside the extent, resolves to k when the guess is k. */
  lemma ResolveOnLine(offset: int, extent: int, cell: int, k: int, tolerance: int)
    requires cell > 0 && tolerance >= 0
    requires offset == cell * k && 0 <= offset <= extent
    ensures Resolve(offset, extent, cell, k, tolerance) == k
  {
  }

  /** Inside the extent, a residual over half a cell whose complement is within the tolerance rounds up. */
  lemma ResolveRoundsUp(offset: int, extent: int, cell: int, guess: int, tolerance: int)
    requires -tolerance <= offset <= extent + tolerance
    requires var e := offset - cell * guess; 2 * e > cell && cell - e <= tolerance
    ensures Resolve(offset, extent, cell, guess, tolerance) == guess + 1
  {
  }

  /**
   * An offset at most `r` short of line k, with `r` under half a cell and
   * within the tolerance, resolves to k from the floor guess.
   */
  lemma ResolveNearLine(offset: int, extent: int, cell: int, k: int, r: int, tolerance: int)
    requires cell > 0 && 0 <= r && 2 * r < cell && r <= tolerance
    requires offset == cell * k - r && 0 <= cell * k <= extent
    ensures Resolve(offset, extent, cell, offset / cell, tolerance) == k
  {
    if r == 0 {
      DivUnique(offset, cell, k, 0);
    } else {
      DivUnique(offset, cell, k - 1, cell - r);
      ResolveRoundsUp(offset, extent, cell, k - 1, tolerance);
    }
  }

  /**
   * The converse of `ResolveWithin`: with a tolerance under half a cell, an
   * offset within the tolerance of a line k inside the extent resolves to k
   * from the floor guess.
   */
  lemma ResolveFound(offset: int, extent: int, cell: int, k: int, tolerance: int)
    requires cell > 0 && 2 * tolerance < cell
    requires 0 <= cell * k <= extent
    requires -tolerance <= offset - cell * k <= tolerance
    ensures Resolve(offset, extent, cell, offset / cell, tolerance) == k
  {
    var r := offset - cell * k;
    if r >= 0 {
      DivUnique(offset, cell, k, r);
    } else {
      assert offset == cell * (k - 1) + (cell + r);
      DivUnique(offset, cell, k - 1, cell + r);
    }
  }

  /**
   * An offset exactly half a cell past line k, within the extent and the
   * tolerance, resolves to k from the floor guess.
   */
  lemma ResolveHalfCell(offset: int, extent: int, cell: int, k: int, tolerance: int)
    requires cell > 0 && 2 * (offset - cell * k) == cell && cell <= 2 * tolerance
    requires 0 <= cell * k && cell * (k + 1) <= extent
    ensures Resolve(offset, extent, cell, offset / cell, tolerance) == k
  {
    DivUnique(offset, cell, k, offset - cell * k);
  }

  /**
   * When the extent is `count` whole cells and the tolerance is under half a
   * cell, a resolved line lies in 0..count.
   */
  lemma ResolveInRange(offset: int, extent: int, cell: int, guess: int, tolerance: int, count: int)
    requires cell > 0 && extent == cell * count && 2 * tolerance < cell
    requires var e := offset - cell * guess; e < cell && (0 <= e || offset <= e)
    ensures var n := Resolve(offset, extent, cell, guess, tolerance);
      n == -1 || 0 <= n <= count
  {
    var n := Resolve(offset, extent, cell, guess, tolerance);
    if n != -1 {
      ResolveWithin(offset, extent, cell, guess, tolerance);
      assert InBand(offset, extent, tolerance);
      assert -cell < cell * n < cell * (count + 1);
      if n < 0 {
        MulMono(cell, n, -1);
      }
      if n > count {
        MulMono(cell, count + 1, n);
      }
    }
  }

  // ---------------------------------------------------------------------------
  // Notes

  /** On a staff of positive width the band test inside `Resolve` covers the query's own (an unfolding step for the lemmas below). */
  lemma ClosestNoteUnfold(b: Rect, xPos: int, maxError: int)
    requires b.w > 0
    ensures var xOffset := 14 * (xPos - b.x);
      ClosestNote(b, xPos, maxError) == Resolve(xOffset, 14 * b.w, b.w, CDiv(xOffset, b.w), 14 * maxError)
  {
  }

  /**
   * A note that `getClosestNote` returns is within `maxError` pixels of the
   * click: in fourteenths of a pixel, |14 * (xPos - x) - w * n| <= 14 * maxError.
   */
  lemma ClosestNoteWithin(b: Rect, xPos: int, maxError: int)
    requires b.w > 0
    ensures var n := ClosestNote(b, xPos, maxError);
      n != -1 ==> Abs(14 * (xPos - b.x) - b.w * n) <= 14 * maxError
  {
    CDivResidual(14 * (xPos - b.x), b.w);
    ResolveWithin(14 * (xPos - b.x), 14 * b.w, b.w, CDiv(14 * (xPos - b.x), b.w), 14 * maxError);
  }

  /**
   * `getClosestNote` returns the nearest note line, the lower one when the
   * click is exactly half way: against every line when the click is right
   * of the staff's left edge, and against every line from 0 on when the
   * tolerance is under half a note width (left of the edge it returns 0).
   */
  lemma ClosestNoteNearest(b: Rect, xPos: int, maxError: int, j: int)
    requires b.w > 0 && (xPos >= b.x || (28 * maxError < b.w && j >= 0))
    requires ClosestNote(b, xPos, maxError) != -1
    ensures var n := ClosestNote(b, xPos, maxError);
      var dn := Abs(14 * (xPos - b.x) - b.w * n);
      var dj := Abs(14 * (xPos - b.x) - b.w * j);
      dn <= dj && (dn == dj && j != n ==> n < j)
  {
    var xOffset := 14 * (xPos - b.x);
    if xPos >= b.x {
      CDivResidual(xOffset, b.w);
      ResolveNearest(xOffset, 14 * b.w, b.w, CDiv(xOffset, b.w), 14 * maxError, j);
    } else {
      ResolveLeftOfEdge(xOffset, 14 * b.w, b.w, 14 * maxError);
      MulNonNegative(b.w, j);
    }
  }

  /**
   * Left of the first line, with a tolerance under half a cell, the
   * truncating guess is line 0 and a hit is line 0.
   */
  lemma ResolveLeftOfEdge(offset: int, extent: int, cell: int, tolerance: int)
    requires offset < 0 && cell > 0 && 2 * tolerance < cell
    requires Resolve(offset, extent, cell, CDiv(offset, cell), tolerance) != -1
    ensures CDiv(offset, cell) == 0
    ensures Resolve(offset, extent, cell, CDiv(offset, cell), tolerance) == 0
  {
    assert -offset < cell;
  }

  /** With a tolerance under half a note width, a resolved note lies in 0..14. */
  lemma ClosestNoteInRange(b: Rect, xPos: int, maxError: int)
    requires b.w > 0 && 28 * maxError < b.w
    ensures var n := ClosestNote(b, xPos, maxError); n == -1 || 0 <= n <= 14
  {
    CDivResidual(14 * (xPos - b.x), b.w);
    ResolveInRange(14 * (xPos - b.x), 14 * b.w, b.w, CDiv(14 * (xPos - b.x), b.w), 14 * maxError, 14);
  }

  /**
   * With a tolerance under half a note width, `getClosestNote` returns note
   * k (0..14) exactly when the click is within `maxError` pixels of it, as
   * its documentation promises.
   */
  lemma ClosestNoteFound(b: Rect, xPos: int, maxError: int, k: int)
    requires b.w > 0 && 28 * maxError < b.w && 0 <= k <= 14
    ensures ClosestNote(b, xPos, maxError) == k <==> Abs(14 * (xPos - b.x) - b.w * k) <= 14 * maxError
  {
    ClosestNoteWithin(b, xPos, maxError);
    var xOffset := 14 * (xPos - b.x);
    if Abs(xOffset - b.w * k) <= 14 * maxError {
      MulMono(b.w, 0, k);
      MulMono(b.w, k, 14);
      if xOffset >= 0 {
        CDivOfNatural(xOffset, b.w);
        ResolveFound(xOffset, 14 * b.w, b.w, k, 14 * maxError);
      } else {
        LeftOfEdgeIsLineZero(xOffset, b.w, k, 14 * maxError);
      }
    }
  }

  /** Left of the first line, a line within a tolerance under half a cell is line 0, and the truncated guess is 0. */
  lemma LeftOfEdgeIsLineZero(offset: int, cell: int, k: int, tolerance: int)
    requires offset < 0 && cell > 0 && 2 * tolerance < cell && k >= 0
    requires offset - cell * k >= -tolerance
    ensures k == 0 && CDiv(offset, cell) == 0
  {
    if k >= 1 {
      MulMono(cell, 1, k);
    }
  }

  /** The tolerance `mouseDown` uses, a fortieth of the width, is under half a note width. */
  lemma MouseToleranceUnderHalfNote(w: int)
    requires w > 0
    ensures 28 * CDiv(w, 40) < w
  {
    CDivOfNatural(w, 40);
  }

  /** A click exactly on note line k resolves to k. */
  lemma ClosestNoteOnLine(b: Rect, k: int, xPos: int, maxError: int)
    requires b.w > 0 && 0 <= k <= 14 && maxError >= 0
    requires 14 * (xPos - b.x) == b.w * k
    ensures ClosestNote(b, xPos, maxError) == k
  {
    MulMono(b.w, 0, k);
    MulMono(b.w, k, 14);
    CDivOfNatural(b.w * k, b.w);
    DivUnique(b.w * k, b.w, k, 0);
    ResolveOnLine(b.w * k, 14 * b.w, b.w, k, 14 * maxError);
  }

  /** The arithmetic of a click half way between note lines k and k+1, in fourteenths of a pixel. */
  lemma HalfwayOffset(w: int, k: int, dx: int)
    requires w > 0 && 0 <= k < 14 && 28 * dx == w * (2 * k + 1)
    ensures 14 * dx >= 0 && 2 * (14 * dx - w * k) == w
    ensures 0 <= w * k && w * (k + 1) <= 14 * w
  {
    assert w * (2 * k + 1) == 2 * (w * k) + w;
    MulMono(w, 0, k);
    MulMono(w, k + 1, 14);
  }

  /** A click exactly half way between note lines k and k+1 resolves to k when the tolerance allows it. */
  lemma ClosestNoteHalfway(b: Rect, k: int, xPos: int, maxError: int)
    requires b.w > 0 && 0 <= k < 14
    requires 28 * (xPos - b.x) == b.w * (2 * k + 1)
    requires 28 * maxError >= b.w
    ensures ClosestNote(b, xPos, maxError) == k
  {
    var xOffset := 14 * (xPos - b.x);
    HalfwayOffset(b.w, k, xPos - b.x);
    CDivOfNatural(xOffset, b.w);
    ResolveHalfCell(xOffset, 14 * b.w, b.w, k, 14 * maxError);
    ClosestNoteUnfold(b, xPos, maxError);
  }

  /**
   * `getClosestNote` inverts `getNoteX`: on a staff at least 27 pixels wide
   * with a tolerance of at least one pixel, the pixel `getNoteX` gives for
   * note k resolves back to k.
   */
  lemma ClosestNoteOfNoteX(b: Rect, k: int, maxError: int)
    requires b.w >= 27 && b.x >= 0 && 0 <= k <= 14 && maxError >= 1
    ensures ClosestNote(b, NoteX(b, k), maxError) == k
  {
    var p := b.w * k;
    var q, r := p / 14, p % 14;
    assert p == 14 * q + r && 0 <= r < 14;
    assert 0 <= p <= 14 * b.w by {
      MulMono(b.w, 0, k);
      MulMono(b.w, k, 14);
    }
    var xPos := NoteX(b, k);
    assert xPos == b.x + q by {
      CDivOfNatural(14 * b.x + p, 14);
      DivUnique(14 * b.x + p, 14, b.x + q, r);
    }
    var xOffset := 14 * (xPos - b.x);
    assert xOffset == p - r && xOffset >= 0;
    CDivOfNatural(xOffset, b.w);
    ResolveNearLine(xOffset, 14 * b.w, b.w, k, r, 14 * maxError);
    ClosestNoteUnfold(b, xPos, maxError);
  }

  /**
   * `getNoteX` gives -1 for a note outside 0..14, and a pixel between the
   * staff's left and right edges for a note inside it.
   */
  lemma NoteXWithinStaff(b: Rect, note: int)
    requires b.w >= 0
    ensures note < 0 || note > 14 ==> NoteX(b, note) == -1
    ensures 0 <= note <= 14 ==> b.x <= NoteX(b, note) <= b.x + b.w
  {
    if 0 <= note <= 14 {
      var a := 14 * b.x + b.w * note;
      assert 14 * b.x <= a <= 14 * b.x + 14 * b.w by {
        MulNonNegative(b.w, note);
        MulNonNegative(b.w, 14 - note);
      }
      CDivResidual(a, 14);
    }
  }

  // ---------------------------------------------------------------------------
  // Beats

  /** On a staff of positive height the band test inside `Resolve` covers the query's own (an unfolding step for the lemmas below). */
  lemma ClosestBeatUnfold(isStart: bool, b: Rect, yPos: int, maxError: int)
    requires b.h > 0
    ensures var yOffset := 32 * (yPos - b.y) - b.h * HeaderRows(isStart);
      var extent := 32 * b.h - b.h * HeaderRows(isStart);
      ClosestBeat(isStart, b, yPos, maxError) == Resolve(yOffset, extent, b.h, yOffset / b.h, 32 * maxError)
  {
  }

  /** The beat rows below the header fill the rest of the staff exactly. */
  lemma UsableHeight(isStart: bool, h: int)
    ensures 32 * h - h * HeaderRows(isStart) == h * BeatCount(isStart)
  {
  }

  /**
   * A beat that `getClosestBeat` returns is within `maxError` pixels of the
   * click, measured from the top of beat 0 (in thirty-seconds of a pixel).
   */
  lemma ClosestBeatWithin(isStart: bool, b: Rect, yPos: int, maxError: int)
    requires b.h > 0
    ensures var n := ClosestBeat(isStart, b, yPos, maxError);
      var yOffset := 32 * (yPos - b.y) - b.h * HeaderRows(isStart);
      n != -1 ==> Abs(yOffset - b.h * n) <= 32 * maxError
  {
    var yOffset := 32 * (yPos - b.y) - b.h * HeaderRows(isStart);
    FloorResidual(yOffset, b.h);
    ResolveWithin(yOffset, 32 * b.h - b.h * HeaderRows(isStart), b.h, yOffset / b.h, 32 * maxError);
  }

  /** Everywhere, `getClosestBeat` returns the nearest beat line, the lower one when the click is exactly half way. */
  lemma ClosestBeatNearest(isStart: bool, b: Rect, yPos: int, maxError: int, j: int)
    requires b.h > 0
    requires ClosestBeat(isStart, b, yPos, maxError) != -1
    ensures var n := ClosestBeat(isStart, b, yPos, maxError);
      var yOffset := 32 * (yPos - b.y) - b.h * HeaderRows(isStart);
      var dn := Abs(yOffset - b.h * n);
      var dj := Abs(yOffset - b.h * j);
      dn <= dj && (dn == dj && j != n ==> n < j)
  {
    var yOffset := 32 * (yPos - b.y) - b.h * HeaderRows(isStart);
    FloorResidual(yOffset, b.h);
    ResolveNearest(yOffset, 32 * b.h - b.h * HeaderRows(isStart), b.h, yOffset / b.h, 32 * maxError, j);
  }

  /** With a tolerance under half a beat height, a resolved beat lies in 0..BeatCount. */
  lemma ClosestBeatInRange(isStart: bool, b: Rect, yPos: int, maxError: int)
    requires b.h > 0 && 64 * maxError < b.h
    ensures var n := ClosestBeat(isStart, b, yPos, maxError);
      n == -1 || 0 <= n <= BeatCount(isStart)
  {
    var yOffset := 32 * (yPos - b.y) - b.h * HeaderRows(isStart);
    UsableHeight(isStart, b.h);
    FloorResidual(yOffset, b.h);
    ResolveInRange(yOffset, 32 * b.h - b.h * HeaderRows(isStart), b.h, yOffset / b.h, 32 * maxError, BeatCount(isStart));
  }

  /**
   * With a tolerance under half a beat height, `getClosestBeat` returns beat
   * k (0..BeatCount) exactly when the click is within `maxError` pixels of
   * it, measured from the top of beat 0, as its documentation promises.
   */
  lemma ClosestBeatFound(isStart: bool, b: Rect, yPos: int, maxError: int, k: int)
    requires b.h > 0 && 64 * maxError < b.h && 0 <= k <= BeatCount(isStart)
    ensures var yOffset := 32 * (yPos - b.y) - b.h * HeaderRows(isStart);
      ClosestBeat(isStart, b, yPos, maxError) == k <==> Abs(yOffset - b.h * k) <= 32 * maxError
  {
    ClosestBeatWithin(isStart, b, yPos, maxError);
    var yOffset := 32 * (yPos - b.y) - b.h * HeaderRows(isStart);
    if Abs(yOffset - b.h * k) <= 32 * maxError {
      UsableHeight(isStart, b.h);
      MulMono(b.h, 0, k);
      MulMono(b.h, k, BeatCount(isStart));
      ResolveFound(yOffset, 32 * b.h - b.h * HeaderRows(isStart), b.h, k, 32 * maxError);
    }
  }

  /** A click exactly on beat line k, for 0 <= k <= BeatCount, resolves to k. */
  lemma ClosestBeatOnLine(isStart: bool, b: Rect, k: int, yPos: int, maxError: int)
    requires b.h > 0 && 0 <= k <= BeatCount(isStart) && maxError >= 0
    requires 32 * (yPos - b.y) - b.h * HeaderRows(isStart) == b.h * k
    ensures ClosestBeat(isStart, b, yPos, maxError) == k
  {
    UsableHeight(isStart, b.h);
    MulMono(b.h, 0, k);
    MulMono(b.h, k, BeatCount(isStart));
    DivUnique(b.h * k, b.h, k, 0);
    ResolveOnLine(b.h * k, 32 * b.h - b.h * HeaderRows(isStart), b.h, k, 32 * maxError);
  }

  /**
   * `getClosestBeat` inverts `getBeatY`: on a staff at least 63 pixels high
   * with a tolerance of at least one pixel, the pixel `getBeatY` gives for
   * beat k resolves back to k.
   */
  lemma ClosestBeatOfBeatY(isStart: bool, b: Rect, k: int, maxError: int)
    requires b.h >= 63 && b.y >= 0 && 0 <= k <= BeatCount(isStart) && maxError >= 1
    ensures ClosestBeat(isStart, b, BeatY(isStart, b, k), maxError) == k
  {
    var rows := HeaderRows(isStart);
    var p := b.h * (rows + k);
    BeatYOffset(b.y, b.h, rows, k, BeatCount(isStart));
    var yPos := BeatY(isStart, b, k);
    assert yPos == b.y + p / 32;
    var yOffset := 32 * (yPos - b.y) - b.h * rows;
    ResolveNearLine(yOffset, 32 * b.h - b.h * rows, b.h, k, p % 32, 32 * maxError);
    ClosestBeatUnfold(isStart, b, yPos, maxError);
  }

  /**
   * The arithmetic of `getBeatY` for beat k below `rows` header rows, in
   * thirty-seconds of a pixel: the pixel is the floor of the exact
   * position, which lies r < 32 units above beat line k.
   */
  lemma BeatYOffset(y: int, h: int, rows: int, k: int, count: int)
    requires h >= 63 && y >= 0 && rows >= 0 && rows + count == 32 && 0 <= k <= count
    ensures var p := h * (rows + k);
      && CDiv(32 * y + p, 32) == y + p / 32
      && 32 * (p / 32) - h * rows == h * k - p % 32
      && 0 <= p % 32 < 32
      && 0 <= h * k <= 32 * h - h * rows
  {
    var p := h * (rows + k);
    var q, r := p / 32, p % 32;
    assert p == 32 * q + r && 0 <= r < 32;
    MulMono(h, 0, rows + k);
    CDivOfNatural(32 * y + p, 32);
    DivUnique(32 * y + p, 32, y + q, r);
    assert p == h * rows + h * k;
    assert h * (rows + count) == h * rows + h * count;
    MulMono(h, 0, k);
    MulMono(h, k, count);
  }

  /**
   * `getBeatY` gives -1 for a beat outside 0..BeatCount, and a pixel between
   * the top of beat 0 and the bottom of the staff for a beat inside it.
   */
  lemma BeatYWithinStaff(isStart: bool, b: Rect, beat: int)
    requires b.h >= 0
    ensures beat < 0 || beat > BeatCount(isStart) ==> BeatY(isStart, b, beat) == -1
    ensures 0 <= beat <= BeatCount(isStart) ==>
      32 * b.y + b.h * HeaderRows(isStart) - 32 < 32 * BeatY(isStart, b, beat) <= 32 * (b.y + b.h)
  {
    if 0 <= beat <= BeatCount(isStart) {
      var rows := HeaderRows(isStart);
      var a := 32 * b.y + b.h * (rows + beat);
      BeatRowsWithinStaff(b.h, rows, beat);
      TruncatedThirtySecond(a, 32 * b.y + b.h * rows, b.y + b.h);
    }
  }

  /** Truncating a value between `lo` and 32 * `hi` to a multiple of 32 keeps it above `lo` - 32 and at most 32 * `hi`. */
  lemma TruncatedThirtySecond(a: int, lo: int, hi: int)
    requires lo <= a <= 32 * hi
    ensures lo - 32 < 32 * CDiv(a, 32) <= 32 * hi
  {
    CDivResidual(a, 32);
  }

  /** Beat `beat` below `rows` header rows lies between the beat top and the staff bottom, in thirty-seconds of a pixel. */
  lemma BeatRowsWithinStaff(h: int, rows: int, beat: int)
    requires h >= 0 && 0 <= beat && rows + beat <= 32
    ensures h * rows <= h * (rows + beat) <= 32 * h
  {
    MulNonNegative(h, beat);
    MulNonNegative(h, 32 - rows - beat);
    assert h * (rows + beat) == h * rows + h * beat;
  }

  /**
   * The two hit tests round differently half a cell before their first
   * line. With lines 2 pixels apart and a tolerance of 2 pixels, a click 1
   * pixel left of note line 0 resolves to note 0 (truncation guesses line
   * 0), while a click 1 pixel above beat line 0 resolves to line -1 (the
   * floor guesses line -1 and the tie keeps it), which reads as "no beat".
   */
  lemma RoundingAsymmetry()
    ensures ClosestNote(Rect(0, 0, 28, 64), -1, 2) == 0
    ensures ClosestBeat(false, Rect(0, 0, 28, 64), -1, 2) == -1
  {
    assert CDiv(-14, 28) == 0;
    assert -32 / 64 == -1;
  }
}
