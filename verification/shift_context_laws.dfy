/**
 * Laws relating the mutations of the swap-request registry to each other
 * and to the derived views the pages read.
 */
module ShiftContextLaws {
  import opened Types
  import opened Filtering
  import opened ShiftContext

  /** The status column of the request list. */
  function Statuses(reqs: seq<SwapRequest>): (r: seq<SwapStatus>)
    ensures |r| == |reqs|
    ensures forall i :: 0 <= i < |reqs| ==> r[i] == reqs[i].status
  {
    seq(|reqs|, i requires 0 <= i < |reqs| => reqs[i].status)
  }

  /** Setting the same status twice is setting it once, at the later time. */
  lemma SetStatusTwice(reqs: seq<SwapRequest>, id: RequestId, status: SwapStatus, t1: Timestamp, t2: Timestamp)
    ensures SetStatus(SetStatus(reqs, id, status, t1), id, status, t2) == SetStatus(reqs, id, status, t2)
    ensures Statuses(SetStatus(SetStatus(reqs, id, status, t1), id, status, t2)) == Statuses(SetStatus(reqs, id, status, t1))
  {
  }

  /**
   * Approving, rejecting or cancelling a second time changes nothing but the
   * time of the last update, so the statuses are those after the first call.
   */
  lemma DecisionsIdempotent(reqs: seq<SwapRequest>, id: RequestId, t1: Timestamp, t2: Timestamp)
    ensures ApproveSwapRequest(ApproveSwapRequest(reqs, id, t1), id, t2) == ApproveSwapRequest(reqs, id, t2)
    ensures RejectSwapRequest(RejectSwapRequest(reqs, id, t1), id, t2) == RejectSwapRequest(reqs, id, t2)
    ensures CancelSwapRequest(CancelSwapRequest(reqs, id, t1), id, t2) == CancelSwapRequest(reqs, id, t2)
    ensures Statuses(ApproveSwapRequest(ApproveSwapRequest(reqs, id, t1), id, t2)) == Statuses(ApproveSwapRequest(reqs, id, t1))
    ensures Statuses(RejectSwapRequest(RejectSwapRequest(reqs, id, t1), id, t2)) == Statuses(RejectSwapRequest(reqs, id, t1))
    ensures Statuses(CancelSwapRequest(CancelSwapRequest(reqs, id, t1), id, t2)) == Statuses(CancelSwapRequest(reqs, id, t1))
  {
    SetStatusTwice(reqs, id, Approved, t1, t2);
    SetStatusTwice(reqs, id, Rejected, t1, t2);
    SetStatusTwice(reqs, id, Cancelled, t1, t2);
  }

  /** Volunteering twice for the same id is volunteering once, at the later time. */
  lemma VolunteerIdempotent(reqs: seq<SwapRequest>, current: Option<User>, id: RequestId, t1: Timestamp, t2: Timestamp)
    ensures VolunteerForSwap(VolunteerForSwap(reqs, current, id, t1), current, id, t2)
         == VolunteerForSwap(reqs, current, id, t2)
    ensures Statuses(VolunteerForSwap(VolunteerForSwap(reqs, current, id, t1), current, id, t2))
         == Statuses(VolunteerForSwap(reqs, current, id, t1))
  {
  }

  /** A new request is appended to the end of its requester's history. */
  lemma {:induction false} CreateExtendsHistory(
    reqs: seq<SwapRequest>, user: User, newId: RequestId, shiftId: ShiftId, reason: string, now: Timestamp)
    ensures UserRequestHistory(CreateSwapRequest(reqs, Some(user), newId, shiftId, reason, now), Some(user))
         == UserRequestHistory(reqs, Some(user)) + [NewRequest(user, newId, shiftId, reason, now)]
  {
    var q := NewRequest(user, newId, shiftId, reason, now);
    assert CreateSwapRequest(reqs, Some(user), newId, shiftId, reason, now) == reqs + [q];
    FilterAppend(reqs, [q], InHistory(Some(user)));
    assert [q][1..] == [];
    assert Filter([q], InHistory(Some(user))) == [q];
  }

  /**
   * A new request is appended to every other user's swap board and leaves
   * the requester's own board as it was.
   */
  lemma {:induction false} CreateExtendsBoard(
    reqs: seq<SwapRequest>, user: User, viewer: Option<User>,
    newId: RequestId, shiftId: ShiftId, reason: string, now: Timestamp)
    ensures OpenRequests(CreateSwapRequest(reqs, Some(user), newId, shiftId, reason, now), viewer)
         == OpenRequests(reqs, viewer)
            + (if viewer.Some? && viewer.value.id == user.id then [] else [NewRequest(user, newId, shiftId, reason, now)])
  {
    var q := NewRequest(user, newId, shiftId, reason, now);
    assert CreateSwapRequest(reqs, Some(user), newId, shiftId, reason, now) == reqs + [q];
    FilterAppend(reqs, [q], OpenForUser(viewer));
    assert [q][1..] == [];
    assert Filter([q], OpenForUser(viewer))
        == if viewer.Some? && viewer.value.id == user.id then [] else [q];
  }

  /** A new request is in nobody's approval queue. */
  lemma {:induction false} CreateKeepsQueue(
    reqs: seq<SwapRequest>, user: User, viewer: Option<User>,
    newId: RequestId, shiftId: ShiftId, reason: string, now: Timestamp)
    ensures PendingApprovalRequests(CreateSwapRequest(reqs, Some(user), newId, shiftId, reason, now), viewer)
         == PendingApprovalRequests(reqs, viewer)
  {
    var q := NewRequest(user, newId, shiftId, reason, now);
    assert CreateSwapRequest(reqs, Some(user), newId, shiftId, reason, now) == reqs + [q];
    FilterAppend(reqs, [q], AwaitingManager(viewer));
    assert [q][1..] == [];
    assert Filter([q], AwaitingManager(viewer)) == [];
  }

  /** After a user volunteers, the request with that id is on nobody's swap board. */
  lemma VolunteerLeavesBoard(reqs: seq<SwapRequest>, user: User, id: RequestId, now: Timestamp, viewer: Option<User>)
    ensures forall q :: q in OpenRequests(VolunteerForSwap(reqs, Some(user), id, now), viewer) ==> q.id != id
  {
  }

  /**
   * After a user volunteers, the request with that id is in every manager's
   * approval queue and in the volunteer's history.
   */
  lemma VolunteerEntersQueue(reqs: seq<SwapRequest>, user: User, id: RequestId, now: Timestamp, manager: User)
    requires manager.role == Manager
    ensures var r := VolunteerForSwap(reqs, Some(user), id, now);
      forall i :: 0 <= i < |r| && r[i].id == id ==>
        r[i] in PendingApprovalRequests(r, Some(manager)) && r[i] in UserRequestHistory(r, Some(user))
  {
  }

  /** Volunteering for one id leaves the board membership of every other request as it was. */
  lemma VolunteerFramesBoard(reqs: seq<SwapRequest>, user: User, id: RequestId, now: Timestamp, viewer: Option<User>)
    ensures var r := VolunteerForSwap(reqs, Some(user), id, now);
      forall q: SwapRequest :: q.id != id ==> (q in OpenRequests(reqs, viewer) <==> q in OpenRequests(r, viewer))
  {
  }

  /** Once approved or rejected, a request is no longer in any approval queue. */
  lemma DecisionLeavesQueue(reqs: seq<SwapRequest>, id: RequestId, now: Timestamp, viewer: Option<User>)
    ensures forall q :: q in PendingApprovalRequests(ApproveSwapRequest(reqs, id, now), viewer) ==> q.id != id
    ensures forall q :: q in PendingApprovalRequests(RejectSwapRequest(reqs, id, now), viewer) ==> q.id != id
  {
  }

  /** A cancelled request leaves every swap board and every approval queue. */
  lemma CancelLeavesBoard(reqs: seq<SwapRequest>, id: RequestId, now: Timestamp, viewer: Option<User>)
    ensures forall q :: q in OpenRequests(CancelSwapRequest(reqs, id, now), viewer) ==> q.id != id
    ensures forall q :: q in PendingApprovalRequests(CancelSwapRequest(reqs, id, now), viewer) ==> q.id != id
  {
  }
}
