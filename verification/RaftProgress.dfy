/** The progress a leader keeps for one member, updated in place. */
module RaftProgress {
  import opened RaftTypes
  import opened RaftSpec

  class Progress {
    var NextIndex: nat
    var MatchIndex: nat
    var State: ProgressState
    /** The member this is about. */
    ghost const member: NodeId

    constructor (ghost id: NodeId, next: nat, matched: nat, state: ProgressState)
      ensures View() == Track(next, matched, state) && member == id
    {
      member := id;
      NextIndex, MatchIndex, State := next, matched, state;
    }

    function View(): Track
      reads this
    {
      Track(NextIndex, MatchIndex, State)
    }

    method MaybeUpdate(newIndex: nat) returns (updated: bool)
      modifies this
      ensures View() == RaftSpec.MaybeUpdate(old(View()), newIndex)
      ensures updated <==> newIndex > old(MatchIndex)
    {
      if newIndex <= MatchIndex {
        return false;
      }
      MatchIndex := newIndex;
      if NextIndex <= newIndex {
        NextIndex := newIndex + 1;
      }
      return true;
    }

    method MaybeDecrTo(rejected: nat, conflictIndex: nat) returns (retry: bool)
      modifies this
      ensures (View(), retry) == RaftSpec.MaybeDecrTo(old(View()), rejected, conflictIndex)
    {
      if State == Replicate {
        State := Probe;
        NextIndex := MatchIndex + 1;
        return true;
      }
      if rejected != NextIndex - 1 {
        return false;
      }
      var newNext := conflictIndex;
      if newNext < 1 {
        newNext := 1;
      }
      if newNext < NextIndex {
        NextIndex := newNext;
        return true;
      }
      return false;
    }

    method BecomeReplicate()
      modifies this
      ensures View() == RaftSpec.BecomeReplicate(old(View()))
    {
      State := Replicate;
      NextIndex := MatchIndex + 1;
    }

    /** The code goes on to test for the snapshot state it has just overwritten, to no effect. */
    method BecomeProbe()
      modifies this
      ensures View() == old(View()).(state := Probe)
    {
      State := Probe;
    }
  }
}
