/**
 * A concrete run over the records of src/data/mockData.ts, with today as
 * day 0 and every other day counted from it: the staff member signs in, sees
 * the board, volunteers, and the request is approved and then rejected, a
 * sequence the code lets through because it checks no status.
 */
module MockScenario {
  import opened Types
  import opened Filtering
  import opened ShiftContext
  import opened SwapBoard
  import opened Auth

  const John := User("user-1", "John Staff", "staff@example.com", Staff, Some("Sales"))
  const Jane := User("user-2", "Jane Manager", "manager@example.com", Manager, Some("Sales"))
  const Bob := User("user-3", "Bob Coworker", "bob@example.com", Staff, Some("Customer Service"))
  const Alice := User("user-4", "Alice Team Lead", "alice@example.com", Staff, Some("Operations"))

  const MockUsers: seq<User> := [John, Jane, Bob, Alice]

  const MockShifts: seq<Shift> := [
    Shift("shift-1", "user-1", 1, "09:00", "17:00", "Sales Associate", Some("Main Floor")),
    Shift("shift-2", "user-1", 2, "10:00", "18:00", "Sales Associate", Some("Electronics Department")),
    Shift("shift-3", "user-1", 3, "12:00", "20:00", "Sales Associate", Some("Customer Service Desk")),
    Shift("shift-4", "user-3", 1, "08:00", "16:00", "Customer Service Rep", Some("Customer Service Desk")),
    Shift("shift-5", "user-3", 2, "12:00", "20:00", "Customer Service Rep", Some("Returns Department")),
    Shift("shift-6", "user-4", 1, "07:00", "15:00", "Operations Specialist", Some("Back Office")),
    Shift("shift-7", "user-4", 3, "07:00", "15:00", "Operations Specialist", Some("Warehouse"))
  ]

  const Req1 := SwapRequest("req-1", "user-3", "shift-4", "Doctor appointment", Open, None, -3600, -3600)
  const Req2 := SwapRequest("req-2", "user-4", "shift-6", "Family event", PendingApproval, Some("user-1"), -86400, -43200)

  const Req3 := SwapRequest("req-3", "user-1", "shift-2", "Personal appointment", Approved, Some("user-3"), -172800, -86400)
  const Req4 := SwapRequest("req-4", "user-3", "shift-5", "Transportation issues", Rejected, Some("user-4"), -259200, -172800)

  const MockRequests: seq<SwapRequest> := [Req1, Req2, Req3, Req4]

  /** The staff address with the mock password signs in as user-1; any other password is refused. */
  lemma StaffLogin(st: Session)
    ensures Login(MockUsers, st, "staff@example.com", "123456") == LoginResult(Session(Some(John), Some(John), false), None)
    ensures Login(MockUsers, st, "staff@example.com", "654321").error == Some(InvalidEmailOrPassword)
  {
  }

  /** Of the four requests only Bob's open one is on John's board. */
  lemma JohnsBoard()
    ensures OpenRequests(MockRequests, Some(John)) == [Req1]
  {
    var p := OpenForUser(Some(John));
    assert Filter([Req4], p) == [];
    assert Filter([Req3, Req4], p) == [];
    assert Filter([Req2, Req3, Req4], p) == [];
    assert MockRequests[1..] == [Req2, Req3, Req4];
  }

  /** John works on day 1, the day of Bob's shift-4. */
  lemma JohnConflictsOnShift4()
    ensures HasConflict(MockShifts, Some(John), "shift-4")
  {
    assert FindShift(MockShifts, "shift-4") == Some(MockShifts[3]);
    assert MockShifts[0] in MockShifts && MockShifts[0].userId == John.id;
  }

  /** The board shows Bob's request with a disabled "Shift Conflict" button. */
  lemma JohnSeesConflict()
    ensures BoardActions(MockRequests, MockShifts, Some(John)) == [VolunteerAction(ConflictLabel, "req-1", true)]
  {
    JohnsBoard();
    JohnConflictsOnShift4();
  }

  /** Volunteer, approve, then reject: each step overwrites the status of req-1. */
  lemma LifecycleWithoutGuards()
    ensures var v := VolunteerForSwap(MockRequests, Some(John), "req-1", 10);
      && v[0].status == PendingApproval && v[0].volunteerId == Some("user-1")
      && ApproveSwapRequest(v, "req-1", 20)[0].status == Approved
      && RejectSwapRequest(ApproveSwapRequest(v, "req-1", 20), "req-1", 30)[0].status == Rejected
  {
  }
}
