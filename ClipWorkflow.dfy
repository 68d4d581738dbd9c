/**
  The clip workflow object: the fields its methods update in place, and one
  method per operation. Every method states its new fields as the matching
  function of ClipWorkflowSpec applied to the old fields; the properties of
  those functions are proved in that module.

  The media player is present or absent (hasMediaPlayer); what is done to the
  player itself (play, pause, stop, release) is not modelled.
*/
module Workflow {
  import Spec = ClipWorkflowSpec

  class ClipWorkflow {
    var state: Spec.State
    var requiredState: Spec.State
    var hasMediaPlayer: bool
    var currentPts: int
    var previousPts: int
    var pauseDuration: int
    var beginPausePts: int

    /** The fields of this workflow as one value. */
    function Snapshot(): Spec.Fields
      reads this
    {
      Spec.Fields(state, requiredState, hasMediaPlayer, currentPts, previousPts, pauseDuration, beginPausePts)
    }

    /**
      A new workflow is stopped, has nothing pending and holds no media
      player. The PTS fields are left unassigned, as the source leaves them
      until initialize.
    */
    constructor ()
      ensures state == Spec.Stopped && requiredState == Spec.None && !hasMediaPlayer
    {
      hasMediaPlayer := false;
      requiredState := Spec.None;
      state := Spec.Stopped;
    }

    method CheckStateChange()
      modifies this
      ensures Snapshot() == Spec.CheckStateChange(old(Snapshot()))
    {
      if requiredState != Spec.None {
        state := requiredState;
        requiredState := Spec.None;
      }
    }

    /** The modelled part of initialize: reset the PTS fields and take a media player. */
    method Initialize()
      modifies this
      ensures Snapshot() == Spec.Initialize(old(Snapshot()))
    {
      currentPts := Spec.Unset;
      previousPts := Spec.Unset;
      pauseDuration := Spec.Unset;
      hasMediaPlayer := true;
    }

    method LoadingComplete()
      modifies this
      ensures Snapshot() == Spec.LoadingComplete(old(Snapshot()))
    {
      SetState(Spec.Rendering);
    }

    method IsEndReached() returns (r: bool)
      ensures r == Spec.IsEndReached(Snapshot())
    {
      r := state == Spec.EndReached;
    }

    method IsStopped() returns (r: bool)
      ensures r == Spec.IsStopped(Snapshot())
    {
      r := state == Spec.Stopped;
    }

    method GetState() returns (s: Spec.State)
      ensures s == Snapshot().state
    {
      s := state;
    }

    method ClipEndReached()
      modifies this
      ensures Snapshot() == Spec.ClipEndReached(old(Snapshot()))
    {
      SetState(Spec.EndReached);
    }

    method Stop()
      modifies this
      ensures Snapshot() == Spec.Stop(old(Snapshot()))
    {
      if hasMediaPlayer {
        hasMediaPlayer := false;
        SetState(Spec.Stopped);
        requiredState := Spec.None;
      }
    }

    method IsRendering() returns (r: bool)
      ensures r == Spec.IsRendering(Snapshot())
    {
      r := state == Spec.Rendering;
    }

    method SetState(s: Spec.State)
      modifies this
      ensures Snapshot() == Spec.SetState(old(Snapshot()), s)
    {
      state := s;
    }

    method QueryStateChange(newState: Spec.State)
      modifies this
      ensures Snapshot() == Spec.QueryStateChange(old(Snapshot()), newState)
    {
      requiredState := newState;
    }

    /**
      The unpause branch pauses (that is, resumes) the media player without
      checking that there is one, so it is only entered with a player.
    */
    method PostGetOutput(nbComputed: nat, maxComputed: nat)
      requires nbComputed < maxComputed / 3 && state == Spec.Paused ==> hasMediaPlayer
      modifies this
      ensures Snapshot() == Spec.PostGetOutput(old(Snapshot()), nbComputed, maxComputed)
    {
      if nbComputed < maxComputed / 3 {
        if state == Spec.Paused {
          state := Spec.UnpauseRequired;
        }
      }
    }

    /**
      The pause branch pauses the media player without checking that there is
      one, so it is only entered with a player.
    */
    method CommonUnlock(nbComputed: nat, maxComputed: nat)
      requires nbComputed == maxComputed ==> hasMediaPlayer
      modifies this
      ensures Snapshot() == Spec.CommonUnlock(old(Snapshot()), nbComputed, maxComputed)
    {
      if nbComputed == maxComputed {
        SetState(Spec.PauseRequired);
      }
      CheckStateChange();
    }

    method ComputePtsDiff(pts: int)
      modifies this
      ensures Snapshot() == Spec.ComputePtsDiff(old(Snapshot()), pts)
    {
      if previousPts == Spec.Unset {
        previousPts := pts;
      }
      if currentPts == Spec.Unset {
        currentPts := pts;
      }
      if pauseDuration != Spec.Unset {
        previousPts := currentPts + pauseDuration;
        pauseDuration := Spec.Unset;
      } else {
        previousPts := currentPts;
      }
      currentPts := if pts >= previousPts then pts else previousPts;
    }

    /** now is the clock reading (mdate) at the time of the callback. */
    method MediaPlayerPaused(now: int)
      modifies this
      ensures Snapshot() == Spec.MediaPlayerPaused(old(Snapshot()), now)
    {
      SetState(Spec.Paused);
      beginPausePts := now;
    }

    /** now is the clock reading (mdate) at the time of the callback. */
    method MediaPlayerUnpaused(now: int)
      modifies this
      ensures Snapshot() == Spec.MediaPlayerUnpaused(old(Snapshot()), now)
    {
      SetState(Spec.Rendering);
      pauseDuration := now - beginPausePts;
    }
  }

  /**
    A caller's view: a new workflow is stopped; after initialize and one
    frame, both PTS fields hold that frame's timestamp; stopping it then
    leaves it stopped without a player, and a second stop changes nothing.
  */
  method LifeCycle(pts: int) returns (w: ClipWorkflow)
    ensures w.state == Spec.Stopped && w.requiredState == Spec.None && !w.hasMediaPlayer
    ensures w.currentPts == pts && w.previousPts == pts && w.pauseDuration == Spec.Unset
  {
    w := new ClipWorkflow();
    var stopped := w.IsStopped();
    assert stopped;
    w.Initialize();
    w.ComputePtsDiff(pts);
    w.Stop();
    w.Stop();
  }
}
