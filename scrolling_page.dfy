/**
 * ScrollingPage: the editor page. It holds one start strip followed by any
 * number of middle strips, the note grid drawn over them, and a scroll
 * position `stripNum` that the up and down buttons move a quarter strip at
 * a time. Scrolling down near the end of the list appends a middle strip,
 * so the list only ever grows. A note clicked in strip i at local beat b
 * toggles global beat b + (beats held by strips 0..i-1) in the grid.
 *
 * `stripNum` is a float holding multiples of 0.25, kept here as the whole
 * number of quarters. Whether an animation is running is asked of an
 * external animation library; here it is an input to the click.
 */
module Pages {
  import opened Arith
  import opened JuceArray
  import opened Grids
  import opened Strips

  /** The two navigation buttons. */
  datatype NavButton = Up | Down

  /** The strip list the page builds: a start strip, then middle strips only. */
  predicate StripShape(strips: seq<MusicStrip>) {
    && |strips| >= 2
    && strips[0].isStart
    && forall i :: 1 <= i < |strips| ==> !strips[i].isStart
  }

  /** The number of beats held by the strips before position `i`. */
  function BeatsBefore(strips: seq<MusicStrip>, i: nat): int
    requires i <= |strips|
  {
    if i == 0 then 0 else BeatsBefore(strips, i - 1) + BeatCount(strips[i - 1].isStart)
  }

  /** The beat of the whole song that local beat `beat` of strip `i` stands for. */
  function GlobalBeat(strips: seq<MusicStrip>, i: nat, beat: int): int
    requires i <= |strips|
  {
    beat + BeatsBefore(strips, i)
  }

  /**
   * The top of strip `index` when the page is scrolled to `quarters`
   * quarter strips and is `pageHeight` pixels high:
   * (index - stripNum) * pageHeight, converted to int by truncation.
   */
  function StripTop(index: int, quarters: int, pageHeight: int): (y: int)
    ensures var exact := (4 * index - quarters) * pageHeight;
      && (exact >= 0 ==> 4 * y <= exact < 4 * y + 4)
      && (exact < 0 ==> 4 * y - 4 < exact <= 4 * y)
  {
    CDivResidual((4 * index - quarters) * pageHeight, 4);
    CDiv((4 * index - quarters) * pageHeight, 4)
  }

  class ScrollingPage {
    // The scroll position, in quarters of a strip (`stripNum` * 4).
    var stripQuarters: nat
    // All strips, in page order.
    var musicStrips: seq<MusicStrip>
    // The note data shown over the strips.
    const noteGrid: NoteGrid

    /**
     * The page's invariant: the strips are well formed, and the scroll
     * position never passes the second-to-last strip.
     */
    ghost predicate Valid()
      reads this, musicStrips
    {
      StripsValid() && stripQuarters <= 4 * (|musicStrips| - 2)
    }

    /** The strip shape, each strip held once and reporting its clicks to this page. */
    ghost predicate StripsValid()
      reads this, musicStrips
    {
      && StripShape(musicStrips)
      && NoDuplicates(musicStrips)
      && forall i :: 0 <= i < |musicStrips| ==> musicStrips[i].Valid() && this in musicStrips[i].listeners
    }

    /** The page starts at the top with a start strip and one middle strip. */
    constructor ()
      ensures Valid()
      ensures stripQuarters == 0 && |musicStrips| == 2
      ensures fresh(musicStrips[0]) && fresh(musicStrips[1])
      ensures fresh(noteGrid) && noteGrid.noteMap == map[]
    {
      stripQuarters := 0;
      var start := new MusicStrip(true);
      var middle := new MusicStrip(false);
      musicStrips := [start, middle];
      noteGrid := new NoteGrid();
      new;
      start.AddListener(this);
      middle.AddListener(this);
      assert start != middle && start.listeners == [this] && middle.listeners == [this];
    }

    /**
     * `buttonClicked`: ignored while animating, and "up" is ignored at the
     * top; otherwise the position moves a quarter strip. When the new
     * position is at or past the second-to-last strip, one new middle strip
     * reporting to this page is appended.
     */
    method ButtonClicked(button: NavButton, isAnimating: bool)
      requires Valid()
      modifies this
      ensures Valid()
      ensures
        var moves := !isAnimating && !(button == Up && old(stripQuarters) == 0);
        stripQuarters == (if !moves then old(stripQuarters)
                          else if button == Up then old(stripQuarters) - 1
                          else old(stripQuarters) + 1)
      ensures
        var moves := !isAnimating && !(button == Up && old(stripQuarters) == 0);
        if moves && stripQuarters >= 4 * (old(|musicStrips|) - 2) then
          && |musicStrips| == old(|musicStrips|) + 1
          && musicStrips[..old(|musicStrips|)] == old(musicStrips)
          && fresh(musicStrips[old(|musicStrips|)])
          && !musicStrips[old(|musicStrips|)].isStart
          && musicStrips[old(|musicStrips|)].listeners == [this]
        else
          musicStrips == old(musicStrips)
      ensures button == Up ==> musicStrips == old(musicStrips)
      ensures stripQuarters < 4 * (|musicStrips| - 1)
    {
      if isAnimating {
        return;
      }
      if button == Up {
        if stripQuarters == 0 {
          return;
        }
        stripQuarters := stripQuarters - 1;
      } else {
        stripQuarters := stripQuarters + 1;
      }
      if stripQuarters >= 4 * (|musicStrips| - 2) {
        AppendStrip();
      }
    }

    /** The strip growth inside `buttonClicked`: a new middle strip that reports to this page. */
    method AppendStrip()
      requires StripsValid()
      modifies this`musicStrips
      ensures StripsValid()
      ensures |musicStrips| == old(|musicStrips|) + 1
      ensures musicStrips[..old(|musicStrips|)] == old(musicStrips)
      ensures fresh(musicStrips[old(|musicStrips|)])
      ensures !musicStrips[old(|musicStrips|)].isStart
      ensures musicStrips[old(|musicStrips|)].listeners == [this]
    {
      var strip := new MusicStrip(false);
      strip.AddListener(this);
      musicStrips := musicStrips + [strip];
    }

    /**
     * `noteClicked`: a click from a strip that is not on the page changes
     * nothing; otherwise the strip-local beat is moved past the beats of
     * all earlier strips and that one cell of the grid is toggled.
     */
    method NoteClicked(strip: MusicStrip, note: int, beat: int)
      modifies noteGrid`noteMap
      ensures
        var i := IndexOf(musicStrips, strip);
        noteGrid.noteMap == if i == -1 then old(noteGrid.noteMap)
                            else Toggled(old(noteGrid.noteMap), note, GlobalBeat(musicStrips, i, beat))
    {
      var stripIndex := IndexOf(musicStrips, strip);
      if stripIndex < 0 {
        return;
      }
      var globalBeat := beat;
      for i := 0 to stripIndex
        invariant globalBeat == beat + BeatsBefore(musicStrips, i)
      {
        globalBeat := globalBeat + BeatCount(musicStrips[i].isStart);
      }
      assert globalBeat == GlobalBeat(musicStrips, stripIndex, beat);
      var _ := noteGrid.ToggleNote(note, globalBeat);
    }

    /**
     * `getStripBounds`: strip `index` spans the page's height, starts at the
     * left edge, ends where the up button starts, and sits `index - stripNum`
     * page heights below the top.
     */
    function GetStripBounds(index: int, pageHeight: int, upButtonX: int): (r: Rect)
      reads this
      ensures r.x == 0 && r.w == upButtonX && r.h == pageHeight
      ensures r.y == StripTop(index, stripQuarters, pageHeight)
    {
      Rect(0, StripTop(index, stripQuarters, pageHeight), upButtonX, pageHeight)
    }
  }

  // ---------------------------------------------------------------------------
  // Global beats

  /** Strip 0 holds 24 beats and every later strip 32, so strip i starts at beat 24 + 32 * (i - 1). */
  lemma {:induction false} BeatsBeforeClosedForm(strips: seq<MusicStrip>, i: nat)
    requires StripShape(strips) && i <= |strips|
    ensures BeatsBefore(strips, i) == if i == 0 then 0 else 24 + 32 * (i - 1)
  {
    if i > 1 {
      BeatsBeforeClosedForm(strips, i - 1);
    }
  }

  /** The bottom line of strip i and the top line of strip i + 1 are the same global beat. */
  lemma BoundaryMeetsNext(strips: seq<MusicStrip>, i: nat)
    requires i + 1 < |strips|
    ensures GlobalBeat(strips, i, BeatCount(strips[i].isStart)) == GlobalBeat(strips, i + 1, 0)
  {
  }

  /** Different cells of different strips never share a global beat. */
  lemma GlobalBeatInjective(strips: seq<MusicStrip>, i: nat, b: int, j: nat, c: int)
    requires StripShape(strips) && i < |strips| && j < |strips|
    requires 0 <= b < BeatCount(strips[i].isStart) && 0 <= c < BeatCount(strips[j].isStart)
    requires GlobalBeat(strips, i, b) == GlobalBeat(strips, j, c)
    ensures i == j && b == c
  {
    BeatsBeforeClosedForm(strips, i);
    BeatsBeforeClosedForm(strips, j);
  }

  /** Every global beat the strips hold is a cell of exactly one strip. */
  lemma LocateBeat(strips: seq<MusicStrip>, g: int) returns (i: nat, b: int)
    requires StripShape(strips) && 0 <= g < BeatsBefore(strips, |strips|)
    ensures i < |strips| && 0 <= b < BeatCount(strips[i].isStart)
    ensures GlobalBeat(strips, i, b) == g
  {
    BeatsBeforeClosedForm(strips, |strips|);
    if g < 24 {
      i, b := 0, g;
    } else {
      i, b := (g - 24) / 32 + 1, (g - 24) % 32;
      BeatsBeforeClosedForm(strips, i);
    }
  }

  // ---------------------------------------------------------------------------
  // Strip bounds

  /**
   * When strips i and i + 1 lie both below or both above the top of the
   * page, they are exactly one page height apart.
   */
  lemma StripTopSpacing(i: int, quarters: int, pageHeight: int)
    requires pageHeight >= 0
    requires 4 * i >= quarters || 4 * (i + 1) <= quarters
    ensures StripTop(i + 1, quarters, pageHeight) == StripTop(i, quarters, pageHeight) + pageHeight
  {
    var d := 4 * i - quarters;
    var a := d * pageHeight;
    assert 4 * (i + 1) - quarters == d + 4;
    assert (d + 4) * pageHeight == a + 4 * pageHeight;
    if d >= 0 {
      assert a >= 0 by {
        MulNonNegative(d, pageHeight);
      }
    } else {
      assert a + 4 * pageHeight <= 0 by {
        MulNonNegative(-(d + 4), pageHeight);
      }
    }
  }

  /**
   * Truncation toward zero breaks the spacing for the strip cut by the top
   * edge: scrolled a quarter strip down on a 10-pixel page, strip 0 starts
   * at -2 and strip 1 at 7, 9 pixels apart.
   */
  lemma StripTopStraddlingTop()
    ensures StripTop(0, 1, 10) == -2 && StripTop(1, 1, 10) == 7
  {
    assert CDiv(-10, 4) == -2;
    assert CDiv(30, 4) == 7;
  }
}
