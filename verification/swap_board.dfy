/**
 * The Swap Board page (src/pages/SwapBoard.tsx): one card per open request
 * of the registry, whose volunteer button is disabled when the signed-in
 * user already works on the day of the requested shift.
 *
 * The page looks the shifts up in the static shift fixture rather than in
 * the registry; `shifts` below is that list.
 */
module SwapBoard {
  import opened Types
  import opened Filtering
  import opened ShiftContext

  /** Index `i` holds the first shift of `shifts` carrying `shiftId`. */
  predicate IsFirstWithId(shifts: seq<Shift>, i: int, shiftId: ShiftId)
  {
    && 0 <= i < |shifts|
    && shifts[i].id == shiftId
    && forall j :: 0 <= j < i ==> shifts[j].id != shiftId
  }

  /** `shifts.find(s => s.id === shiftId)`: the first shift carrying the id. */
  function FindShift(shifts: seq<Shift>, shiftId: ShiftId): (r: Option<Shift>)
    ensures r.None? <==> forall sh :: sh in shifts ==> sh.id != shiftId
    ensures r.Some? ==> r.value.id == shiftId
    ensures r.Some? ==> exists i :: IsFirstWithId(shifts, i, shiftId) && shifts[i] == r.value
    decreases |shifts|
  {
    if |shifts| == 0 then None
    else if shifts[0].id == shiftId then Some(shifts[0])
    else
      var r := FindShift(shifts[1..], shiftId);
      assert r.Some? ==> exists i :: IsFirstWithId(shifts, i, shiftId) && shifts[i] == r.value by {
        if r.Some? {
          var i :| IsFirstWithId(shifts[1..], i, shiftId) && shifts[1..][i] == r.value;
          assert IsFirstWithId(shifts, i + 1, shiftId);
        }
      }
      r
  }

  /** The shift belongs to the signed-in user and falls on day `d` (src/pages/SwapBoard.tsx:40). */
  function OwnOnDay(current: Option<User>, d: Day): Shift -> bool
  {
    (sh: Shift) => IsOwnShift(sh, current) && sh.date == d
  }

  /**
   * `getUserShiftCountOnSameDay`: how many of the user's shifts fall on the
   * day of the requested shift; 0 when no shift has the requested id.
   */
  function SameDayCount(shifts: seq<Shift>, current: Option<User>, shiftId: ShiftId): (n: nat)
    ensures FindShift(shifts, shiftId).None? ==> n == 0
    ensures FindShift(shifts, shiftId).Some? ==>
      n == |OnDay(UserShifts(shifts, current), FindShift(shifts, shiftId).value.date)|
    ensures n <= |shifts|
    ensures current.None? ==> n == 0
  {
    match FindShift(shifts, shiftId)
    case None => 0
    case Some(shift) =>
      FilterFilter(shifts, OwnShift(current), DatedOn(shift.date), OwnOnDay(current, shift.date));
      |Filter(shifts, OwnOnDay(current, shift.date))|
  }

  /** `hasConflict`: the user already has a shift on the requested shift's day. */
  function HasConflict(shifts: seq<Shift>, current: Option<User>, shiftId: ShiftId): (b: bool)
    ensures b <==> (FindShift(shifts, shiftId).Some? && current.Some? &&
      exists sh :: sh in shifts && sh.userId == current.value.id && sh.date == FindShift(shifts, shiftId).value.date)
  {
    var b := SameDayCount(shifts, current, shiftId) > 0;
    assert FindShift(shifts, shiftId).Some? ==>
      var mine := OnDay(UserShifts(shifts, current), FindShift(shifts, shiftId).value.date);
      |mine| > 0 ==> mine[0] in mine;
    b
  }

  const ConflictLabel: string := "Shift Conflict"
  const VolunteerLabel: string := "Volunteer for Swap"

  /** The primary action of one card: its label, its target and whether it is disabled. */
  datatype VolunteerAction = VolunteerAction(title: string, requestId: RequestId, disabled: bool)

  function ActionFor(q: SwapRequest, shifts: seq<Shift>, current: Option<User>): VolunteerAction
  {
    var conflict := HasConflict(shifts, current, q.shiftId);
    VolunteerAction(if conflict then ConflictLabel else VolunteerLabel, q.id, conflict)
  }

  /** `openRequests.map(...)`: one action per request on the board, in board order. */
  function BoardActions(reqs: seq<SwapRequest>, shifts: seq<Shift>, current: Option<User>): (r: seq<VolunteerAction>)
    ensures |r| == |OpenRequests(reqs, current)|
    ensures forall i :: 0 <= i < |r| ==>
      var q := OpenRequests(reqs, current)[i];
      && r[i].requestId == q.id
      && (r[i].disabled <==> HasConflict(shifts, current, q.shiftId))
      && (r[i].disabled ==> r[i].title == ConflictLabel)
      && (!r[i].disabled ==> r[i].title == VolunteerLabel)
  {
    var board := OpenRequests(reqs, current);
    seq(|board|, i requires 0 <= i < |board| => ActionFor(board[i], shifts, current))
  }

  /** A click on the action: a disabled button does nothing, otherwise it volunteers. */
  function PressVolunteer(a: VolunteerAction, reqs: seq<SwapRequest>, current: Option<User>, now: Timestamp): (r: seq<SwapRequest>)
    ensures a.disabled ==> r == reqs
    ensures !a.disabled ==> r == VolunteerForSwap(reqs, current, a.requestId, now)
  {
    if a.disabled then reqs else VolunteerForSwap(reqs, current, a.requestId, now)
  }

  /**
   * Pressing an enabled card of the board volunteers the signed-in user for
   * exactly that card's request, which then leaves the board.
   */
  lemma PressedCardLeavesBoard(
    reqs: seq<SwapRequest>, shifts: seq<Shift>, user: User, i: nat, now: Timestamp)
    requires i < |OpenRequests(reqs, Some(user))|
    requires !HasConflict(shifts, Some(user), OpenRequests(reqs, Some(user))[i].shiftId)
    ensures var q := OpenRequests(reqs, Some(user))[i];
      var r := PressVolunteer(BoardActions(reqs, shifts, Some(user))[i], reqs, Some(user), now);
      && (forall k :: 0 <= k < |reqs| && reqs[k].id == q.id ==>
            r[k].status == PendingApproval && r[k].volunteerId == Some(user.id))
      && (forall p :: p in OpenRequests(r, Some(user)) ==> p.id != q.id)
  {
  }
}
