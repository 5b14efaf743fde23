/**
 * PlaybackTimer: plays a note grid one beat per tick. Starting arms a 1 ms
 * tick; each tick sends the notes of the current beat to the note player
 * (when there are any), moves to the next beat and re-arms the timer at the
 * beat interval; the tick after the last beat stops playback.
 *
 * The JUCE timer is modelled by its state alone, a `running` flag and the
 * interval it was armed with; elapsed time is not modelled, and a tick is a
 * call of `TimerCallback`, which the timer makes only while it is running.
 * The note player is a sink that records each list of notes it is given.
 */
module Playback {
  import opened Arith
  import opened Grids

  /** The audio output, reduced to the log of the note lists it was asked to play. */
  class NotePlayer {
    var played: seq<seq<int>>

    constructor ()
      ensures played == []
    {
      played := [];
    }

    /** `playNotes`. */
    method PlayNotes(notes: seq<int>)
      modifies this
      ensures played == old(played) + [notes]
    {
      played := played + [notes];
    }
  }

  /**
   * `msFromBPM`: 36000 / bpm in C++ integer division, so the largest
   * interval whose multiple by bpm stays within 36000, taken toward zero.
   */
  function MsFromBpm(bpm: int): (ms: int)
    requires bpm != 0
    ensures bpm > 0 ==> ms >= 0 && ms * bpm <= 36000 < (ms + 1) * bpm
    ensures bpm < 0 ==> ms <= 0 && ms * bpm <= 36000 < (ms - 1) * bpm
  {
    var c := Abs(bpm);
    var q := 36000 / c;
    FloorBounds(36000, c);
    assert CDiv(36000, bpm) == if bpm > 0 then q else -q;
    assert bpm < 0 ==> -q * bpm == q * c && (-q - 1) * bpm == (q + 1) * c;
    CDiv(36000, bpm)
  }

  /** The period `juce::Timer::startTimer` arms for a requested interval: at least 1 ms. */
  function ArmedPeriod(ms: int): int {
    if ms < 1 then 1 else ms
  }

  /**
   * Everything a tick, a start or a stop can change: the timer's state, the
   * playback fields, whether a grid is attached, and the player's log.
   */
  datatype TimerState = TimerState(
    running: bool,          // `isTimerRunning()`
    interval: int,          // the period the timer was last armed with, in ms
    hasGrid: bool,          // `noteGrid != nullptr`
    beatIndex: int,
    numBeats: int,
    frequency: int,         // the beat interval in ms
    played: seq<seq<int>>)  // every note list sent to the player, in order

  /** How the fields hang together between calls. */
  predicate Consistent(s: TimerState) {
    && 0 <= s.beatIndex <= s.numBeats
    && (s.running <==> s.hasGrid)
    && (!s.running ==> s.beatIndex == 0 && s.numBeats == 0)
  }

  /** `stopPlayback`: the timer stops, the grid is dropped and the beat fields are zeroed. */
  function Stopped(s: TimerState): TimerState {
    s.(running := false, hasGrid := false, beatIndex := 0, numBeats := 0)
  }

  /**
   * `startPlayback` with a grid holding `beats` beats: stop first if
   * running, then attach the grid and arm a 1 ms tick.
   */
  function Started(s: TimerState, beats: int, bpm: int): TimerState
    requires bpm != 0
  {
    var t := if s.running then Stopped(s) else s;
    t.(hasGrid := true, numBeats := beats, frequency := MsFromBpm(bpm), running := true, interval := ArmedPeriod(1))
  }

  /**
   * `timerCallback`, where `notes` is what the grid holds at the current
   * beat: past the last beat playback stops; otherwise non-empty notes are
   * played, the beat advances and the timer is re-armed at the beat interval
   * (raised to at least 1 ms, as JUCE arms it).
   */
  function Ticked(s: TimerState, notes: seq<int>): TimerState {
    if s.beatIndex >= s.numBeats then Stopped(s)
    else
      s.(played := s.played + (if notes == [] then [] else [notes]),
         beatIndex := s.beatIndex + 1,
         running := true, interval := ArmedPeriod(s.frequency))
  }

  class PlaybackTimer {
    const notePlayer: NotePlayer
    // The grid being played, or null when stopped.
    var noteGrid: NoteGrid?
    var beatIndex: int
    var numBeats: int
    // Milliseconds per beat; not initialised until playback starts.
    var frequency: int
    // The JUCE timer this class derives from.
    var running: bool
    var interval: int

    function State(): TimerState
      reads this, notePlayer
    {
      TimerState(running, interval, noteGrid != null, beatIndex, numBeats, frequency, notePlayer.played)
    }

    ghost predicate Valid()
      reads this, notePlayer
    {
      Consistent(State())
    }

    /** A new timer is stopped, has no grid and sits at beat 0 of 0; `frequency` is left unset. */
    constructor (notePlayer: NotePlayer)
      ensures Valid()
      ensures this.notePlayer == notePlayer && noteGrid == null && !running
      ensures beatIndex == 0 && numBeats == 0
    {
      this.notePlayer := notePlayer;
      noteGrid := null;
      beatIndex := 0;
      numBeats := 0;
      running := false;
    }

    /** `startTimer`: the timer runs, armed with the interval raised to at least 1 ms. */
    method StartTimer(ms: int)
      modifies this`running, this`interval
      ensures running && interval == ArmedPeriod(ms) && interval >= 1
    {
      running := true;
      interval := if ms < 1 then 1 else ms;
    }

    method StopTimer()
      modifies this`running
      ensures !running
    {
      running := false;
    }

    /**
     * `startPlayback`: without a grid nothing happens; otherwise a running
     * playback is stopped and the grid is played from beat 0.
     */
    method StartPlayback(grid: NoteGrid?, bpm: int)
      requires Valid()
      requires grid != null ==> bpm != 0
      modifies this
      ensures Valid()
      ensures grid == null ==> State() == old(State()) && noteGrid == old(noteGrid)
      ensures grid != null ==>
        && noteGrid == grid
        && IsBeatCount(grid.noteMap, numBeats)
        && State() == Started(old(State()), numBeats, bpm)
        && beatIndex == 0
    {
      if grid == null {
        return;
      }
      if running {
        StopPlayback();
      }
      noteGrid := grid;
      numBeats := grid.GetBeatCount();
      frequency := MsFromBpm(bpm);
      StartTimer(1);
    }

    /** `stopPlayback`. */
    method StopPlayback()
      modifies this
      ensures State() == Stopped(old(State())) && noteGrid == null
    {
      StopTimer();
      noteGrid := null;
      beatIndex := 0;
      numBeats := 0;
    }

    /**
     * `timerCallback`, called by the timer while it runs. Reading the beat
     * goes through `getNotes`, which leaves an empty entry behind for a beat
     * that had none; the tick that stops playback leaves the grid's notes
     * as they were.
     */
    method TimerCallback()
      requires Valid() && running
      modifies this, notePlayer, noteGrid`noteMap
      ensures Valid()
      ensures
        var notes := Get(old(noteGrid.noteMap), old(beatIndex));
        && State() == Ticked(old(State()), notes)
        && (old(beatIndex) < old(numBeats) ==> noteGrid == old(noteGrid))
        && old(noteGrid).noteMap == if old(beatIndex) < old(numBeats) then old(noteGrid.noteMap)[old(beatIndex) := notes]
                                    else old(noteGrid.noteMap)
    {
      StopTimer();
      if beatIndex >= numBeats {
        StopPlayback();
        return;
      }
      var notes := noteGrid.GetNotes(beatIndex, true);
      if notes != [] {
        notePlayer.PlayNotes(notes);
      }
      beatIndex := beatIndex + 1;
      if !running {
        StartTimer(frequency);
      }
    }

    /** The destructor: a running timer is stopped. */
    method Dispose()
      requires Valid()
      modifies this
      ensures Valid() && !running && noteGrid == null
      ensures State() == if old(running) then Stopped(old(State())) else old(State())
    {
      if running {
        StopPlayback();
      }
    }
  }

  // ---------------------------------------------------------------------------
  // Properties of the state machine

  /** The non-empty note lists of beats 0..k-1, in beat order. */
  function Schedule(m: NoteMap, k: nat): seq<seq<int>> {
    if k == 0 then []
    else Schedule(m, k - 1) + (if Get(m, k - 1) == [] then [] else [Get(m, k - 1)])
  }

  /** `k` ticks in a row while the grid reads `m`. */
  function Run(s: TimerState, m: NoteMap, k: nat): TimerState
    decreases k
  {
    if k == 0 then s else Run(Ticked(s, Get(m, s.beatIndex)), m, k - 1)
  }

  /** Start, stop and tick each keep the fields consistent. */
  lemma StepsKeepConsistent(s: TimerState, beats: int, bpm: int, notes: seq<int>)
    requires Consistent(s) && bpm != 0 && beats >= 0
    ensures Consistent(Stopped(s))
    ensures Consistent(Started(s, beats, bpm)) && Started(s, beats, bpm).beatIndex == 0
    ensures s.running ==> Consistent(Ticked(s, notes))
  {
  }

  /** Stopping twice is stopping once. */
  lemma StopIdempotent(s: TimerState)
    ensures Stopped(Stopped(s)) == Stopped(s)
  {
  }

  /**
   * From a start with N beats, the first k <= N ticks visit beats 0..k-1 in
   * order, each once, sending the player exactly the non-empty ones, and
   * the timer keeps running at the beat interval (raised to at least 1 ms).
   */
  lemma {:induction false} RunVisitsBeats(s: TimerState, m: NoteMap, k: nat)
    requires s.running && s.beatIndex == 0 && k <= s.numBeats
    ensures var r := Run(s, m, k);
      && r.running && r.beatIndex == k && r.numBeats == s.numBeats && r.hasGrid == s.hasGrid
      && r.played == s.played + Schedule(m, k)
      && (k > 0 ==> r.interval == ArmedPeriod(s.frequency))
      && r.frequency == s.frequency
  {
    if k > 0 {
      RunVisitsBeats(s, m, k - 1);
      RunLast(s, m, k - 1);
    }
  }

  /** One more tick after k - 1 ticks is the k-th tick. */
  lemma {:induction false} RunLast(s: TimerState, m: NoteMap, k: nat)
    ensures Run(s, m, k + 1) == Ticked(Run(s, m, k), Get(m, Run(s, m, k).beatIndex))
    decreases k
  {
    if k > 0 {
      RunLast(Ticked(s, Get(m, s.beatIndex)), m, k - 1);
    }
  }

  /**
   * A playback of N beats ends on tick N + 1: the timer is stopped, the
   * grid dropped, the beat fields zeroed, and the player has received the
   * non-empty note lists of beats 0..N-1 in order.
   */
  lemma PlaybackEnds(s: TimerState, m: NoteMap)
    requires s.running && s.beatIndex == 0 && s.numBeats >= 0
    ensures var r := Run(s, m, s.numBeats + 1);
      && !r.running && !r.hasGrid && r.beatIndex == 0 && r.numBeats == 0
      && r.played == s.played + Schedule(m, s.numBeats)
  {
    RunVisitsBeats(s, m, s.numBeats);
    RunLast(s, m, s.numBeats);
  }

  /** At the default tempo of 60 beats per minute a beat lasts 600 ms. */
  lemma DefaultTempoInterval()
    ensures MsFromBpm(60) == 600
  {
  }
}
