/**
  The state of one clip workflow as a plain value, and each operation of the
  workflow as a function from the old value to the new one. The class in
  ClipWorkflow.dfy is tied to these functions; the properties of the
  workflow are proved here, about the functions and about traces of calls.

  Locks and wait conditions are left out: every operation is one sequential
  update. The number of computed buffers, their maximum and the clock
  (mdate) are inputs of the operations that read them.
*/
module ClipWorkflowSpec {

  /** The states a clip workflow can be in; None only ever appears as "no change pending". */
  datatype State = None | Stopped | Rendering | EndReached | Paused | PauseRequired | UnpauseRequired

  /** The "unset" value of the three PTS bookkeeping fields. */
  const Unset: int := -1

  /**
    The fields the workflow updates: the current state, the pending (required)
    state, whether a media player is held, and the PTS bookkeeping.
  */
  datatype Fields = Fields(
    state: State,
    required: State,
    hasMediaPlayer: bool,
    currentPts: int,
    previousPts: int,
    pauseDuration: int,
    beginPausePts: int)

  // ---------------------------------------------------------------------------
  // State handshake
  // ---------------------------------------------------------------------------

  /** Apply the pending state, if any, and clear it. */
  function CheckStateChange(f: Fields): (r: Fields)
    ensures r.required == None
    ensures f.required != None ==> r.state == f.required
    ensures f.required == None ==> r == f
    ensures r == f.(state := r.state, required := r.required)
  {
    if f.required != None then f.(state := f.required, required := None) else f
  }

  /** Post a pending state; the current state is not touched. */
  function QueryStateChange(f: Fields, newState: State): (r: Fields)
    ensures r.required == newState
    ensures r.state == f.state
    ensures r == f.(required := r.required)
  {
    f.(required := newState)
  }

  /** Overwrite the current state; the pending state is not touched. */
  function SetState(f: Fields, s: State): (r: Fields)
    ensures r.state == s
    ensures r == f.(state := r.state)
  {
    f.(state := s)
  }

  // The three read-only status queries.

  predicate IsEndReached(f: Fields) { f.state == EndReached }

  predicate IsStopped(f: Fields) { f.state == Stopped }

  predicate IsRendering(f: Fields) { f.state == Rendering }

  // ---------------------------------------------------------------------------
  // Life cycle
  // ---------------------------------------------------------------------------

  /**
    What initialize does to the modelled fields: the three PTS fields are reset
    to the unset value and a media player is taken from the pool. The state is
    left alone (it becomes Rendering only when loading completes).
  */
  function Initialize(f: Fields): (r: Fields)
    ensures r.currentPts == Unset && r.previousPts == Unset && r.pauseDuration == Unset
    ensures r.hasMediaPlayer
    ensures r.state == f.state && r.required == f.required && r.beginPausePts == f.beginPausePts
  {
    f.(currentPts := Unset, previousPts := Unset, pauseDuration := Unset, hasMediaPlayer := true)
  }

  /** The player reported that playback started: the workflow is rendering. */
  function LoadingComplete(f: Fields): (r: Fields)
    ensures IsRendering(r)
    ensures r == f.(state := r.state)
  {
    SetState(f, Rendering)
  }

  /** The player reported the end of the media. */
  function ClipEndReached(f: Fields): (r: Fields)
    ensures IsEndReached(r)
    ensures r == f.(state := r.state)
  {
    SetState(f, EndReached)
  }

  /**
    Stop: only acts when a media player is held; it then releases the player,
    sets the state to Stopped and drops any pending state.
  */
  function Stop(f: Fields): (r: Fields)
    ensures f.hasMediaPlayer ==> IsStopped(r) && r.required == None && !r.hasMediaPlayer
    ensures !f.hasMediaPlayer ==> r == f
    ensures r == f.(state := r.state, required := r.required, hasMediaPlayer := r.hasMediaPlayer)
  {
    if f.hasMediaPlayer then f.(hasMediaPlayer := false, state := Stopped, required := None) else f
  }

  // ---------------------------------------------------------------------------
  // Buffer-level pause rules
  // ---------------------------------------------------------------------------

  /**
    After a buffer was handed over: ask for a pause when the stack of computed
    buffers is full, then apply whatever state change is pending.
  */
  function CommonUnlock(f: Fields, nbComputed: nat, maxComputed: nat): (r: Fields)
    ensures r.required == None
    ensures f.required != None ==> r.state == f.required
    ensures f.required == None && nbComputed == maxComputed ==> r.state == PauseRequired
    ensures f.required == None && nbComputed != maxComputed ==> r.state == f.state
    ensures r == f.(state := r.state, required := None)
  {
    var g := if nbComputed == maxComputed then SetState(f, PauseRequired) else f;
    CheckStateChange(g)
  }

  /**
    After a buffer was taken: a paused workflow asks to be unpaused once fewer
    than a third (rounded down) of the maximum number of buffers remain.
  */
  function PostGetOutput(f: Fields, nbComputed: nat, maxComputed: nat): (r: Fields)
    ensures r.state != f.state <==> f.state == Paused && nbComputed < maxComputed / 3
    ensures r.state != f.state ==> r.state == UnpauseRequired
    ensures r == f.(state := r.state)
  {
    if nbComputed < maxComputed / 3 && f.state == Paused then f.(state := UnpauseRequired) else f
  }

  // ---------------------------------------------------------------------------
  // Media-player callbacks and PTS bookkeeping
  // ---------------------------------------------------------------------------

  /** The player paused: record the clock reading at which the pause began. */
  function MediaPlayerPaused(f: Fields, now: int): (r: Fields)
    ensures r.state == Paused && r.beginPausePts == now
    ensures r == f.(state := r.state, beginPausePts := r.beginPausePts)
  {
    f.(state := Paused, beginPausePts := now)
  }

  /** The player resumed: back to rendering, and remember how long the pause lasted. */
  function MediaPlayerUnpaused(f: Fields, now: int): (r: Fields)
    ensures IsRendering(r)
    ensures r.beginPausePts + r.pauseDuration == now
    ensures r == f.(state := r.state, pauseDuration := r.pauseDuration)
  {
    f.(state := Rendering, pauseDuration := now - f.beginPausePts)
  }

  /** qMax on timestamps. */
  function Max(a: int, b: int): int
  {
    if a >= b then a else b
  }

  /** The current PTS before a frame with timestamp pts is accounted: pts itself while unset. */
  function PriorPts(f: Fields, pts: int): int
  {
    if f.currentPts == Unset then pts else f.currentPts
  }

  /**
    Account a frame with timestamp pts. The previous PTS becomes the prior
    current PTS shifted by the pending pause duration (if any), the pending
    pause is consumed, and the current PTS is the later of pts and the
    previous PTS.
  */
  function ComputePtsDiff(f: Fields, pts: int): (r: Fields)
    ensures r.pauseDuration == Unset
    ensures r.currentPts >= r.previousPts && r.currentPts >= pts
    ensures r.currentPts == pts || r.currentPts == r.previousPts
    ensures f.pauseDuration != Unset ==> r.previousPts == PriorPts(f, pts) + f.pauseDuration
    ensures f.pauseDuration == Unset ==> r.previousPts == PriorPts(f, pts)
    ensures r == f.(currentPts := r.currentPts, previousPts := r.previousPts, pauseDuration := Unset)
  {
    // The source first fills an unset previous PTS with pts, but both branches
    // below overwrite the previous PTS, so that step has no visible effect.
    var prior := PriorPts(f, pts);
    var previous := if f.pauseDuration != Unset then prior + f.pauseDuration else prior;
    f.(currentPts := Max(pts, previous), previousPts := previous, pauseDuration := Unset)
  }

  // ---------------------------------------------------------------------------
  // Properties of single operations and of short sequences of them
  // ---------------------------------------------------------------------------

  /** Once the pending state has been applied, applying again changes nothing. */
  lemma CheckStateChangeIdempotent(f: Fields)
    ensures CheckStateChange(CheckStateChange(f)) == CheckStateChange(f)
  {
  }

  /** A second stop finds no media player and changes nothing. */
  lemma StopIdempotent(f: Fields)
    ensures Stop(Stop(f)) == Stop(f)
  {
  }

  /** A state queried and then checked becomes the current state. */
  lemma QueryThenCheck(f: Fields, s: State)
    requires s != None
    ensures CheckStateChange(QueryStateChange(f, s)) == f.(state := s, required := None)
  {
  }

  /**
    What the status queries report after the callbacks that set the state:
    loading complete means rendering (neither stopped nor at the end), end
    reached means neither rendering nor stopped, and a stop that found a
    player means stopped (neither rendering nor at the end).
  */
  lemma StatusAfterCallbacks(f: Fields)
    ensures IsRendering(LoadingComplete(f)) && !IsStopped(LoadingComplete(f)) && !IsEndReached(LoadingComplete(f))
    ensures IsEndReached(ClipEndReached(f)) && !IsRendering(ClipEndReached(f)) && !IsStopped(ClipEndReached(f))
    ensures f.hasMediaPlayer ==> IsStopped(Stop(f)) && !IsRendering(Stop(f)) && !IsEndReached(Stop(f))
  {
  }

  /** The first frame after initialize sets both the current and the previous PTS to its timestamp. */
  lemma FirstFrameAfterInitialize(f: Fields, pts: int)
    ensures ComputePtsDiff(Initialize(f), pts).currentPts == pts
    ensures ComputePtsDiff(Initialize(f), pts).previousPts == pts
  {
  }

  /**
    One full pause cycle of a rendering workflow with nothing pending: the
    full buffer stack asks for a pause, the player pauses at t0, the drained
    stack asks for an unpause, the player resumes at t1, and the next frame's
    previous PTS is the old current PTS pushed forward by t1 - t0.
  */
  lemma PauseCycle(f: Fields, maxComputed: nat, low: nat, t0: int, t1: int, pts: int)
    requires f.state == Rendering && f.required == None && f.currentPts != Unset
    requires low < maxComputed / 3
    ensures CommonUnlock(f, maxComputed, maxComputed).state == PauseRequired
    ensures var paused := MediaPlayerPaused(CommonUnlock(f, maxComputed, maxComputed), t0);
            var draining := PostGetOutput(paused, low, maxComputed);
            var resumed := MediaPlayerUnpaused(draining, t1);
            var next := ComputePtsDiff(resumed, pts);
            && draining.state == UnpauseRequired
            && resumed.state == Rendering
            && (t1 - t0 != Unset ==> next.previousPts == f.currentPts + (t1 - t0))
            && next.currentPts == Max(pts, next.previousPts)
  {
  }

  // ---------------------------------------------------------------------------
  // Traces of PTS bookkeeping calls
  // ---------------------------------------------------------------------------

  /** The calls that touch the PTS fields: a decoded frame, and the two player callbacks. */
  datatype PtsEvent = Frame(pts: int) | PlayerPaused(now: int) | PlayerUnpaused(now: int)

  function Apply(f: Fields, e: PtsEvent): Fields
  {
    match e
    case Frame(pts) => ComputePtsDiff(f, pts)
    case PlayerPaused(now) => MediaPlayerPaused(f, now)
    case PlayerUnpaused(now) => MediaPlayerUnpaused(f, now)
  }

  /** The fields after the events of evs, in order. */
  function Run(f: Fields, evs: seq<PtsEvent>): Fields
    decreases |evs|
  {
    if evs == [] then f else Run(Apply(f, evs[0]), evs[1..])
  }

  /** The frame events for a sequence of timestamps. */
  function Frames(ps: seq<int>): (evs: seq<PtsEvent>)
    ensures |evs| == |ps|
    ensures forall i :: 0 <= i < |ps| ==> evs[i] == Frame(ps[i])
  {
    seq(|ps|, i requires 0 <= i < |ps| => Frame(ps[i]))
  }

  /** The largest element of a non-empty sequence. */
  function MaxOf(ps: seq<int>): int
    requires |ps| > 0
    decreases |ps|
  {
    if |ps| == 1 then ps[0] else Max(MaxOf(ps[..|ps| - 1]), ps[|ps| - 1])
  }

  /**
    The PTS fields are consistent with a clock reading: a pending pause
    duration is unset or non-negative, the recorded pause start is not in the
    future, and the current PTS is unset or a real (non-negative) timestamp.
  */
  ghost predicate PtsSane(f: Fields, clock: int)
  {
    && (f.pauseDuration == Unset || f.pauseDuration >= 0)
    && f.beginPausePts <= clock
    && (f.currentPts == Unset || f.currentPts >= 0)
  }

  /**
    The events of evs come from a clock that never runs backwards, starting
    at the reading clock, and every frame carries a non-negative timestamp.
  */
  ghost predicate WellTimed(clock: int, evs: seq<PtsEvent>)
    decreases |evs|
  {
    if evs == [] then true
    else match evs[0]
      case Frame(pts) => pts >= 0 && WellTimed(clock, evs[1..])
      case PlayerPaused(now) => clock <= now && WellTimed(now, evs[1..])
      case PlayerUnpaused(now) => clock <= now && WellTimed(now, evs[1..])
  }

  /** The clock reading after the events of evs. */
  function ClockAfter(clock: int, e: PtsEvent): int
  {
    match e
    case Frame(_) => clock
    case PlayerPaused(now) => now
    case PlayerUnpaused(now) => now
  }

  /** The clock reading after all the events of evs. */
  function ClockAfterAll(clock: int, evs: seq<PtsEvent>): int
    decreases |evs|
  {
    if evs == [] then clock else ClockAfterAll(ClockAfter(clock, evs[0]), evs[1..])
  }

  /**
    A well-timed trace cut in two: the first part is well timed from the
    starting clock, the second from the clock reading the first part ends at.
  */
  lemma {:induction false} WellTimedSplit(clock: int, a: seq<PtsEvent>, b: seq<PtsEvent>)
    requires WellTimed(clock, a + b)
    ensures WellTimed(clock, a)
    ensures WellTimed(ClockAfterAll(clock, a), b)
    decreases |a|
  {
    if a == [] {
      assert a + b == b;
    } else {
      assert (a + b)[0] == a[0];
      assert (a + b)[1..] == a[1..] + b;
      WellTimedSplit(ClockAfter(clock, a[0]), a[1..], b);
    }
  }

  /** Running a trace in two parts is running it in one. */
  lemma {:induction false} RunAppend(f: Fields, a: seq<PtsEvent>, b: seq<PtsEvent>)
    ensures Run(f, a + b) == Run(Run(f, a), b)
    decreases |a|
  {
    if a == [] {
      assert a + b == b;
    } else {
      assert (a + b)[0] == a[0];
      assert (a + b)[1..] == a[1..] + b;
      RunAppend(Apply(f, a[0]), a[1..], b);
    }
  }

  /** One event keeps the fields consistent with the clock. */
  lemma ApplyKeepsSane(f: Fields, clock: int, e: PtsEvent)
    requires PtsSane(f, clock)
    requires e.Frame? ==> e.pts >= 0
    requires !e.Frame? ==> clock <= e.now
    ensures PtsSane(Apply(f, e), ClockAfter(clock, e))
    ensures f.currentPts != Unset ==> Apply(f, e).currentPts >= f.currentPts
    ensures e.Frame? ==> Apply(f, e).currentPts >= e.pts
  {
  }

  /**
    With a clock that never runs backwards and non-negative frame timestamps,
    the fields stay consistent with the clock, the current PTS at the end of
    the trace is not below its value at the start, and it is at least the
    timestamp of every frame in the trace.
  */
  lemma {:induction false} PtsNeverGoesBackwards(f: Fields, clock: int, evs: seq<PtsEvent>)
    requires PtsSane(f, clock)
    requires WellTimed(clock, evs)
    ensures PtsSane(Run(f, evs), ClockAfterAll(clock, evs))
    ensures f.currentPts != Unset ==> Run(f, evs).currentPts >= f.currentPts
    ensures forall i :: 0 <= i < |evs| && evs[i].Frame? ==> Run(f, evs).currentPts >= evs[i].pts
    decreases |evs|
  {
    if evs != [] {
      var e := evs[0];
      var g := Apply(f, e);
      ApplyKeepsSane(f, clock, e);
      PtsNeverGoesBackwards(g, ClockAfter(clock, e), evs[1..]);
      assert Run(f, evs) == Run(g, evs[1..]);
      forall i | 0 <= i < |evs| && evs[i].Frame?
        ensures Run(f, evs).currentPts >= evs[i].pts
      {
        if i > 0 {
          assert evs[i] == evs[1..][i - 1];
        }
      }
    }
  }

  /**
    Step by step: along a well-timed trace, no single event lowers a current
    PTS that has been set, and once set it stays set.
  */
  lemma PtsNeverDecreasesAtAnyStep(f: Fields, clock: int, evs: seq<PtsEvent>, k: nat)
    requires PtsSane(f, clock)
    requires WellTimed(clock, evs)
    requires k < |evs|
    ensures Run(f, evs[..k]).currentPts != Unset ==>
              Run(f, evs[..k + 1]).currentPts >= Run(f, evs[..k]).currentPts
    ensures Run(f, evs[..k]).currentPts != Unset ==> Run(f, evs[..k + 1]).currentPts != Unset
  {
    var a, e := evs[..k], evs[k];
    assert evs == a + evs[k..];
    WellTimedSplit(clock, a, evs[k..]);
    PtsNeverGoesBackwards(f, clock, a);
    var g := Run(f, a);
    var c := ClockAfterAll(clock, a);
    assert WellTimed(c, evs[k..]) && evs[k..][0] == e;
    ApplyKeepsSane(g, c, e);
    assert evs[..k + 1] == a + [e];
    RunAppend(f, a, [e]);
    assert Run(g, [e]) == Run(Apply(g, e), []);
  }

  /**
    After initialize, with frames only (no pause), the current PTS is the
    largest timestamp seen and the previous PTS the largest before the last
    frame: the PTS bookkeeping is a running maximum.
  */
  lemma {:induction false} RunningMaximum(f: Fields, ps: seq<int>)
    requires |ps| > 0
    requires forall i :: 0 <= i < |ps| ==> ps[i] >= 0
    ensures Run(Initialize(f), Frames(ps)).currentPts == MaxOf(ps)
    ensures Run(Initialize(f), Frames(ps)).pauseDuration == Unset
    ensures Run(Initialize(f), Frames(ps)).previousPts == if |ps| == 1 then ps[0] else MaxOf(ps[..|ps| - 1])
    decreases |ps|
  {
    var init := Initialize(f);
    if |ps| == 1 {
      assert Frames(ps) == [Frame(ps[0])];
      assert Run(init, Frames(ps)) == Run(ComputePtsDiff(init, ps[0]), []);
    } else {
      var front := ps[..|ps| - 1];
      var last := ps[|ps| - 1];
      assert Frames(ps) == Frames(front) + [Frame(last)];
      RunAppend(init, Frames(front), [Frame(last)]);
      RunningMaximum(f, front);
      MaxOfNonNegative(front);
      var g := Run(init, Frames(front));
      assert Run(g, [Frame(last)]) == Run(ComputePtsDiff(g, last), []);
    }
  }

  /** The largest of non-negative timestamps is non-negative. */
  lemma MaxOfNonNegative(ps: seq<int>)
    requires |ps| > 0
    requires forall i :: 0 <= i < |ps| ==> ps[i] >= 0
    ensures MaxOf(ps) >= 0
  {
  }
}
