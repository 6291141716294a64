/**
 * The entity model of the shift-swap front-end: users, shifts and swap
 * requests, as declared in src/types/index.ts.
 *
 * Calendar dates are abstract day numbers and timestamps are abstract clock
 * values; their string encodings are not part of this model.
 */
module Types {

  type UserId = string
  type ShiftId = string
  type RequestId = string

  /** A calendar day, numbered so that later days are larger. */
  type Day = int

  /** An opaque clock reading, supplied by the caller of every mutation. */
  type Timestamp = int

  /** The optional value of TypeScript (`T | undefined`, `T | null`). */
  datatype Option<+T> = None | Some(value: T)

  datatype UserRole = Staff | Manager

  datatype User = User(
    id: UserId,
    name: string,
    email: string,
    role: UserRole,
    department: Option<string>)

  datatype Shift = Shift(
    id: ShiftId,
    userId: UserId,
    date: Day,
    startTime: string,
    endTime: string,
    role: string,
    location: Option<string>)

  datatype SwapStatus = Open | PendingApproval | Approved | Rejected | Cancelled

  datatype SwapRequest = SwapRequest(
    id: RequestId,
    requesterId: UserId,
    shiftId: ShiftId,
    reason: string,
    status: SwapStatus,
    volunteerId: Option<UserId>,
    createdAt: Timestamp,
    updatedAt: Timestamp)

  /**
   * The value of `user?.id`: absent when nobody is signed in. Comparing a
   * field with it is Option equality, so an absent `volunteerId` compares
   * equal to the id of an absent user, as `undefined === undefined` does.
   */
  function CurrentId(current: Option<User>): (r: Option<UserId>)
    ensures r.Some? <==> current.Some?
    ensures current.Some? ==> r.value == current.value.id
  {
    match current
    case None => None
    case Some(u) => Some(u.id)
  }
}
