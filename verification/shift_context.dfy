/**
 * The swap-request registry of src/contexts/ShiftContext.tsx: the lists of
 * shifts and swap requests, the views every page derives from them for the
 * signed-in user, and the five mutations of the request list.
 *
 * The code applies every transition whatever the request's current status
 * is, and checks neither ownership nor role; the model does the same.
 */
module ShiftContext {
  import opened Types
  import opened Filtering

  // ---------------------------------------------------------------------
  // Derived views
  // ---------------------------------------------------------------------

  /** The shift belongs to the signed-in user (src/contexts/ShiftContext.tsx:35); with nobody signed in, no shift does. */
  predicate IsOwnShift(sh: Shift, current: Option<User>)
  {
    Some(sh.userId) == CurrentId(current)
  }

  /** The request is open and was posted by someone other than the signed-in user (src/contexts/ShiftContext.tsx:38). */
  predicate IsOpenForUser(q: SwapRequest, current: Option<User>)
  {
    q.status == Open && Some(q.requesterId) != CurrentId(current)
  }

  /** The request awaits approval and the signed-in user is a manager (src/contexts/ShiftContext.tsx:42). */
  predicate IsAwaitingManager(q: SwapRequest, current: Option<User>)
  {
    q.status == PendingApproval && current.Some? && current.value.role == Manager
  }

  /**
   * The signed-in user posted the request or volunteered for it
   * (src/contexts/ShiftContext.tsx:46). With nobody signed in, the requests
   * without a volunteer match, since both sides of the comparison are absent.
   */
  predicate IsInHistory(q: SwapRequest, current: Option<User>)
  {
    Some(q.requesterId) == CurrentId(current) || q.volunteerId == CurrentId(current)
  }

  // Each view's criterion as one function value, so that every statement
  // about a view refers to the same predicate.
  function OwnShift(current: Option<User>): Shift -> bool
  {
    (sh: Shift) => IsOwnShift(sh, current)
  }

  function OpenForUser(current: Option<User>): SwapRequest -> bool
  {
    (q: SwapRequest) => IsOpenForUser(q, current)
  }

  function AwaitingManager(current: Option<User>): SwapRequest -> bool
  {
    (q: SwapRequest) => IsAwaitingManager(q, current)
  }

  function InHistory(current: Option<User>): SwapRequest -> bool
  {
    (q: SwapRequest) => IsInHistory(q, current)
  }

  /** The signed-in user's shifts, in roster order. */
  function UserShifts(shifts: seq<Shift>, current: Option<User>): (r: seq<Shift>)
    ensures forall sh :: sh in r <==> sh in shifts && current.Some? && sh.userId == current.value.id
    ensures current.None? ==> r == []
    ensures IsSubsequence(r, shifts)
    ensures forall sh :: multiset(r)[sh] == if IsOwnShift(sh, current) then multiset(shifts)[sh] else 0
  {
    Filter(shifts, OwnShift(current))
  }

  /** The swap board: open requests posted by somebody else. */
  function OpenRequests(reqs: seq<SwapRequest>, current: Option<User>): (r: seq<SwapRequest>)
    ensures forall q :: q in r ==> q.status == Open
    ensures forall q :: q in r && current.Some? ==> q.requesterId != current.value.id
    ensures forall q :: q in reqs && q.status == Open && (current.None? || q.requesterId != current.value.id) ==> q in r
    ensures IsSubsequence(r, reqs)
    ensures forall q :: multiset(r)[q] == if IsOpenForUser(q, current) then multiset(reqs)[q] else 0
  {
    Filter(reqs, OpenForUser(current))
  }

  /** The approval queue: every pending request, but only for a manager. */
  function PendingApprovalRequests(reqs: seq<SwapRequest>, current: Option<User>): (r: seq<SwapRequest>)
    ensures (current.None? || current.value.role != Manager) ==> r == []
    ensures current.Some? && current.value.role == Manager ==>
      forall q :: q in r <==> q in reqs && q.status == PendingApproval
    ensures IsSubsequence(r, reqs)
    ensures forall q :: multiset(r)[q] == if IsAwaitingManager(q, current) then multiset(reqs)[q] else 0
  {
    Filter(reqs, AwaitingManager(current))
  }

  /**
   * The requests the user posted or volunteered for. With nobody signed in
   * the comparison with the absent id selects the requests that have no
   * volunteer.
   */
  function UserRequestHistory(reqs: seq<SwapRequest>, current: Option<User>): (r: seq<SwapRequest>)
    ensures current.Some? ==> forall q :: q in r <==>
      q in reqs && (q.requesterId == current.value.id || q.volunteerId == Some(current.value.id))
    ensures current.None? ==> forall q :: q in r <==> q in reqs && q.volunteerId.None?
    ensures IsSubsequence(r, reqs)
    ensures forall q :: multiset(r)[q] == if IsInHistory(q, current) then multiset(reqs)[q] else 0
  {
    Filter(reqs, InHistory(current))
  }

  function DatedOn(d: Day): Shift -> bool
  {
    (sh: Shift) => sh.date == d
  }

  /** The shifts of `s` that fall on day `d`, in the order of `s`. */
  function OnDay(s: seq<Shift>, d: Day): (r: seq<Shift>)
    ensures forall sh :: sh in r <==> sh in s && sh.date == d
  {
    Filter(s, DatedOn(d))
  }

  // ---------------------------------------------------------------------
  // Mutations
  // ---------------------------------------------------------------------

  /** Applies `f` to every request carrying `id` and keeps the others as they are, in place. */
  function MapById(reqs: seq<SwapRequest>, id: RequestId, f: SwapRequest -> SwapRequest): (r: seq<SwapRequest>)
    ensures |r| == |reqs|
    ensures forall i :: 0 <= i < |reqs| ==> r[i] == if reqs[i].id == id then f(reqs[i]) else reqs[i]
    decreases |reqs|
  {
    if |reqs| == 0 then []
    else [if reqs[0].id == id then f(reqs[0]) else reqs[0]] + MapById(reqs[1..], id, f)
  }

  /** The fields of a request that no transition touches. */
  predicate SameIdentity(a: SwapRequest, b: SwapRequest)
  {
    && a.id == b.id
    && a.requesterId == b.requesterId
    && a.shiftId == b.shiftId
    && a.reason == b.reason
    && a.createdAt == b.createdAt
  }

  /** No request in `reqs` carries `id`. */
  predicate UnknownId(reqs: seq<SwapRequest>, id: RequestId)
  {
    forall q :: q in reqs ==> q.id != id
  }

  /** The record `createSwapRequest` appends for `user`. */
  function NewRequest(user: User, id: RequestId, shiftId: ShiftId, reason: string, now: Timestamp): SwapRequest
  {
    SwapRequest(id, user.id, shiftId, reason, Open, None, now, now)
  }

  function CreateSwapRequest(
    reqs: seq<SwapRequest>, current: Option<User>,
    newId: RequestId, shiftId: ShiftId, reason: string, now: Timestamp): (r: seq<SwapRequest>)
    ensures current.None? ==> r == reqs
    ensures current.Some? ==> |r| == |reqs| + 1 && r[..|reqs|] == reqs
    ensures current.Some? ==>
      var q := r[|reqs|];
      && q.id == newId && q.requesterId == current.value.id && q.shiftId == shiftId
      && q.reason == reason && q.status == Open && q.volunteerId.None?
      && q.createdAt == now && q.updatedAt == now
  {
    match current
    case None => reqs
    case Some(user) => reqs + [NewRequest(user, newId, shiftId, reason, now)]
  }

  function VolunteerForSwap(
    reqs: seq<SwapRequest>, current: Option<User>, id: RequestId, now: Timestamp): (r: seq<SwapRequest>)
    ensures current.None? ==> r == reqs
    ensures UnknownId(reqs, id) ==> r == reqs
    ensures |r| == |reqs|
    ensures forall i :: 0 <= i < |reqs| && reqs[i].id != id ==> r[i] == reqs[i]
    ensures current.Some? ==> forall i :: 0 <= i < |reqs| && reqs[i].id == id ==>
      && SameIdentity(r[i], reqs[i])
      && r[i].status == PendingApproval
      && r[i].volunteerId == Some(current.value.id)
      && r[i].updatedAt == now
  {
    match current
    case None => reqs
    case Some(user) =>
      MapById(reqs, id, (q: SwapRequest) => q.(volunteerId := Some(user.id), status := PendingApproval, updatedAt := now))
  }

  /** The common shape of approve, reject and cancel. */
  function SetStatus(reqs: seq<SwapRequest>, id: RequestId, status: SwapStatus, now: Timestamp): (r: seq<SwapRequest>)
    ensures |r| == |reqs|
    ensures forall i :: 0 <= i < |reqs| ==>
      if reqs[i].id == id then
        SameIdentity(r[i], reqs[i]) && r[i].volunteerId == reqs[i].volunteerId
        && r[i].status == status && r[i].updatedAt == now
      else r[i] == reqs[i]
  {
    MapById(reqs, id, (q: SwapRequest) => q.(status := status, updatedAt := now))
  }

  function ApproveSwapRequest(reqs: seq<SwapRequest>, id: RequestId, now: Timestamp): (r: seq<SwapRequest>)
    ensures |r| == |reqs|
    ensures UnknownId(reqs, id) ==> r == reqs
    ensures forall i :: 0 <= i < |reqs| && reqs[i].id != id ==> r[i] == reqs[i]
    ensures forall i :: 0 <= i < |reqs| && reqs[i].id == id ==>
      && SameIdentity(r[i], reqs[i]) && r[i].volunteerId == reqs[i].volunteerId
      && r[i].status == Approved && r[i].updatedAt == now
  {
    SetStatus(reqs, id, Approved, now)
  }

  function RejectSwapRequest(reqs: seq<SwapRequest>, id: RequestId, now: Timestamp): (r: seq<SwapRequest>)
    ensures |r| == |reqs|
    ensures UnknownId(reqs, id) ==> r == reqs
    ensures forall i :: 0 <= i < |reqs| && reqs[i].id != id ==> r[i] == reqs[i]
    ensures forall i :: 0 <= i < |reqs| && reqs[i].id == id ==>
      && SameIdentity(r[i], reqs[i]) && r[i].volunteerId == reqs[i].volunteerId
      && r[i].status == Rejected && r[i].updatedAt == now
  {
    SetStatus(reqs, id, Rejected, now)
  }

  function CancelSwapRequest(reqs: seq<SwapRequest>, id: RequestId, now: Timestamp): (r: seq<SwapRequest>)
    ensures |r| == |reqs|
    ensures UnknownId(reqs, id) ==> r == reqs
    ensures forall i :: 0 <= i < |reqs| && reqs[i].id != id ==> r[i] == reqs[i]
    ensures forall i :: 0 <= i < |reqs| && reqs[i].id == id ==>
      && SameIdentity(r[i], reqs[i]) && r[i].volunteerId == reqs[i].volunteerId
      && r[i].status == Cancelled && r[i].updatedAt == now
  {
    SetStatus(reqs, id, Cancelled, now)
  }

  /** The provider's state: the two lists and the loading flag. */
  datatype ShiftState = ShiftState(shifts: seq<Shift>, swapRequests: seq<SwapRequest>, isLoading: bool)

  /**
   * `refreshData`, taken as one step: the loading flag goes up and comes
   * down again, and no data is fetched.
   */
  function RefreshData(st: ShiftState): (r: ShiftState)
    ensures r.shifts == st.shifts && r.swapRequests == st.swapRequests
    ensures !r.isLoading
  {
    st.(isLoading := false)
  }
}
