# Shift-swap registry: a Dafny model

This project models the logic of a shift-swap front-end. Staff see their
shifts, post swap requests, and volunteer for colleagues' open requests.
Managers approve or reject requests. Everything lives in one in-memory
registry (`ShiftContext`) and a mock session (`AuthContext`). The pages
derive their lists, counters and button rules from these two.

The model is functional: immutable datatypes, `seq` records, and pure
functions from one request list to the next.

- `Types` holds the entity records of `src/types/index.ts`. A date is an
  abstract day number and a timestamp is an abstract clock value.
  `Types.CurrentId` is the value of `user?.id`.
- `Filtering` is `Array.prototype.filter`: an order-preserving selection.
  `Filtering.SelectsUnique` proves that nothing else keeps the selected
  elements, each as often as it occurs, in order.
- `ShiftContext` holds the four derived views, the five mutations and
  `refreshData`. `ShiftContextLaws` relates the mutations to each other and
  to the views.
- `Dashboard`, `SwapBoard`, `RequestHistory` and `SwapModal` follow their
  pages. `Auth` is the session. `MockScenario` replays a few steps on the
  mock records.

Every transition sets its status whatever the old status was. No mutation
checks ownership or role, and approval never reassigns the shift. A guarded
lifecycle would allow only these moves: open to pending approval, pending
approval to approved or rejected, and open to cancelled. The code allows any
move, and the model follows the code. `MockScenario.LifecycleWithoutGuards`
shows an approved request that is rejected afterwards.

Each comparison with `user?.id` is an `Option` equality, as in JavaScript,
where `undefined === undefined` holds. So with nobody signed in,
`UserRequestHistory` and the "Volunteered by Me" tab select the requests
that have no volunteer. This case cannot be seen in the application,
because its layout only renders the pages for a signed-in user.

## Model

| member | source | states |
|---|---|---|
| Types.CurrentId | src/contexts/ShiftContext.tsx:35 | `user?.id` is absent exactly when nobody is signed in, and otherwise is the user's id |
| Filtering.Filter | src/contexts/ShiftContext.tsx:35-47 | the filter keeps exactly the elements that satisfy the predicate, each as often as in the input, as a subsequence of the input |
| Filtering.SelectsUnique | src/contexts/ShiftContext.tsx:35-47 | any order-preserving selection of exactly the matching elements equals the filter, so the views below are fully determined by their contracts |
| Filtering.FilterIdempotent | src/contexts/ShiftContext.tsx:35-47 | recomputing a view over its own result changes nothing |
| ShiftContext.UserShifts | src/contexts/ShiftContext.tsx:35 | exactly the shifts owned by the signed-in user, in roster order; empty when nobody is signed in |
| ShiftContext.OpenRequests | src/contexts/ShiftContext.tsx:37-39 | only open requests, never one the user posted, and every other open request, in order |
| ShiftContext.PendingApprovalRequests | src/contexts/ShiftContext.tsx:41-43 | empty unless the user is a manager; for a manager, every pending request, in order |
| ShiftContext.UserRequestHistory | src/contexts/ShiftContext.tsx:45-47 | exactly the requests the user posted or volunteered for, in order; with nobody signed in, the requests without a volunteer |
| ShiftContext.CreateSwapRequest | src/contexts/ShiftContext.tsx:85-98 | with no user the list is unchanged; otherwise the old list is a prefix and one open record with the user as requester, the given shift and reason, and no volunteer is appended |
| ShiftContext.VolunteerForSwap | src/contexts/ShiftContext.tsx:102-114 | with no user, or with an unknown id, nothing changes; otherwise matching records get the user as volunteer and status pending approval; the length, the other records and the identity fields of the matched records stay the same |
| ShiftContext.ApproveSwapRequest | src/contexts/ShiftContext.tsx:119-128 | matching records become approved whatever their prior status; nothing else changes except the update time; the length is kept; an unknown id changes nothing |
| ShiftContext.RejectSwapRequest | src/contexts/ShiftContext.tsx:133-142 | as approve, with status rejected |
| ShiftContext.CancelSwapRequest | src/contexts/ShiftContext.tsx:147-156 | as approve, with status cancelled |
| ShiftContext.RefreshData | src/contexts/ShiftContext.tsx:72-83 | shifts and swap requests are untouched and loading ends false |
| ShiftContextLaws.SetStatusTwice | src/contexts/ShiftContext.tsx:119-156 | applying a status transition twice equals applying it once at the later time, and yields the statuses of a single application |
| ShiftContextLaws.DecisionsIdempotent | src/contexts/ShiftContext.tsx:119-159 | approve, reject and cancel are each idempotent on statuses and equal to a single call at the later time |
| ShiftContextLaws.VolunteerIdempotent | src/contexts/ShiftContext.tsx:102-117 | volunteering twice for the same id is volunteering once at the later time |
| ShiftContextLaws.CreateExtendsHistory | src/contexts/ShiftContext.tsx:85-98 | the new request is appended to the end of its requester's history, which is otherwise unchanged |
| ShiftContextLaws.CreateExtendsBoard | src/contexts/ShiftContext.tsx:85-98 | the new request is appended to every other user's swap board and leaves the requester's own board unchanged |
| ShiftContextLaws.CreateKeepsQueue | src/contexts/ShiftContext.tsx:85-98 | creating a request leaves every approval queue unchanged |
| ShiftContextLaws.VolunteerLeavesBoard | src/contexts/ShiftContext.tsx:102-114 | after volunteering, no board shows a request with that id |
| ShiftContextLaws.VolunteerEntersQueue | src/contexts/ShiftContext.tsx:102-114 | after volunteering, the request is in every manager's queue and in the volunteer's history |
| ShiftContextLaws.VolunteerFramesBoard | src/contexts/ShiftContext.tsx:102-114 | volunteering for one id keeps the board membership of every request with another id |
| ShiftContextLaws.DecisionLeavesQueue | src/contexts/ShiftContext.tsx:119-142 | after approval or rejection, no queue holds a request with that id |
| ShiftContextLaws.CancelLeavesBoard | src/contexts/ShiftContext.tsx:147-156 | after cancellation, no board or queue holds a request with that id |
| Dashboard.InsertByDate | src/pages/Dashboard.tsx:28 | inserting into a date-sorted list keeps it sorted and adds exactly the one shift |
| Dashboard.SortByDate | src/pages/Dashboard.tsx:28 | the comparator sort returns a permutation of its input, sorted ascending by date |
| Dashboard.SortByDateStable | src/pages/Dashboard.tsx:28 | the sort is stable: shifts on the same day keep their input order |
| Dashboard.UpcomingShifts | src/pages/Dashboard.tsx:26-28 | exactly the user's shifts dated today or later, each as often as in the input; sorted by date; none dated before today; today's included |
| Dashboard.UpcomingKeepsDayOrder | src/pages/Dashboard.tsx:26-28 | on each day from today on, the upcoming list holds that day's shifts in roster order; on earlier days it holds none |
| Dashboard.Dashboard | src/pages/Dashboard.tsx:113-117 | the upcoming list is exactly the user's shifts from today on, sorted by date, and its length is the Upcoming Shifts counter; the Open Swap Requests counter is the size of the board |
| SwapBoard.FindShift | src/pages/SwapBoard.tsx:35 | the first shift with the id, or none exactly when no shift has it |
| SwapBoard.SameDayCount | src/pages/SwapBoard.tsx:34-42 | 0 when the shift id is unknown or nobody is signed in; otherwise the number of the user's shifts on that shift's day; never more than the number of shifts |
| SwapBoard.HasConflict | src/pages/SwapBoard.tsx:92 | a conflict exists exactly when the requested shift exists and the user has some shift on its day |
| SwapBoard.BoardActions | src/pages/SwapBoard.tsx:91-103 | one action per board entry, in order, targeting that entry's id; disabled and labelled "Shift Conflict" exactly on a conflict, otherwise "Volunteer for Swap" |
| SwapBoard.PressVolunteer | src/pages/SwapBoard.tsx:24-26 | a disabled button changes nothing; an enabled one volunteers for the card's request |
| SwapBoard.PressedCardLeavesBoard | src/pages/SwapBoard.tsx:98-101 | pressing an enabled card makes its request pending with the user as volunteer and removes it from the board |
| RequestHistory.RequestedSwaps | src/pages/RequestHistory.tsx:24-26 | exactly the history entries the user posted, in history order and with their multiplicities |
| RequestHistory.VolunteeredSwaps | src/pages/RequestHistory.tsx:28-30 | exactly the history entries the user volunteered for, in history order and with their multiplicities |
| RequestHistory.TabsCoverHistory | src/pages/RequestHistory.tsx:24-30 | every history entry is on at least one tab, and the tabs hold nothing else |
| RequestHistory.TabsAreRegistryFilters | src/pages/RequestHistory.tsx:24-30 | the tabs equal the filters of the whole registry by requester and by volunteer |
| RequestHistory.CanCancel | src/pages/RequestHistory.tsx:63 | cancelling is offered exactly for an open request posted by the signed-in user |
| RequestHistory.TabActions | src/pages/RequestHistory.tsx:61-72 | each card has a "Cancel Request" action exactly when it can be cancelled, targeting its own id |
| RequestHistory.PressCancel | src/pages/RequestHistory.tsx:32-34 | the action cancels exactly the records with the card's id, keeping their identity and volunteer and stamping them with the current time, and leaves all others unchanged |
| RequestHistory.CancelActionTargetsCard | src/pages/RequestHistory.tsx:69-72 | an offered cancel action belongs to an open request of the user, and pressing it cancels that request |
| Auth.FindByEmail | src/contexts/AuthContext.tsx:45 | the first user with the address, or none exactly when no user has it |
| Auth.Login | src/contexts/AuthContext.tsx:38-60 | succeeds iff some user has the address and the password is "123456"; on success the user and the storage slot both hold the first such user; on failure both are unchanged and the error is raised; loading always ends false |
| Auth.Logout | src/contexts/AuthContext.tsx:62-66 | the storage slot is cleared and the user set to none |
| Auth.IsAuthenticated | src/contexts/AuthContext.tsx:74 | someone is authenticated exactly when `user?.id` is defined, and then it is the session user's id |
| Auth.AuthenticationFollowsSession | src/contexts/AuthContext.tsx:38-74 | `isAuthenticated` holds after login exactly on success or if it held before; after logout it never holds |
| SwapModal.Trim | src/components/modals/CreateSwapRequestModal.tsx:75 | the trimmed text is a contiguous slice of the input, with only whitespace cut from either end, and it neither starts nor ends with whitespace |
| SwapModal.TrimEmptyIffBlank | src/components/modals/CreateSwapRequestModal.tsx:75 | the trimmed reason is empty exactly when every character is an ECMAScript space |
| SwapModal.SubmitDisabled | src/components/modals/CreateSwapRequestModal.tsx:75 | Submit is disabled exactly when the reason is blank or a submit is under way |
| SwapModal.EditReason | src/components/modals/CreateSwapRequestModal.tsx:62 | typing replaces the reason and nothing else |
| SwapModal.HandleSubmit | src/components/modals/CreateSwapRequestModal.tsx:26-36 | creates a request for the dialog's shift with the untrimmed reason, then resets the reason, clears the submitting flag and calls `onClose` |
| SwapModal.PressSubmit | src/components/modals/CreateSwapRequestModal.tsx:73-76 | a disabled Submit changes nothing; an enabled one resets and closes the dialog, leaves the list unchanged when nobody is signed in, and otherwise appends exactly one open request with no volunteer, the fresh id, the dialog's shift, the reason as typed, the user as requester and both timestamps set to now |
| SwapModal.PressCancel | src/components/modals/CreateSwapRequestModal.tsx:70 | Cancel creates no request and calls `onClose` unless a submit is under way |
| SwapModal.SubmittedReasonNotBlank | src/components/modals/CreateSwapRequestModal.tsx:73-75 | every request the dialog creates has a reason that is not blank |
| MockScenario.StaffLogin | src/contexts/AuthContext.tsx:45-52 | the staff address with "123456" signs in as user-1 and stores user-1; another password is refused |
| MockScenario.JohnsBoard | src/contexts/ShiftContext.tsx:37-39 | on all four mock requests, user-1's board holds only req-1 |
| MockScenario.JohnConflictsOnShift4 | src/pages/SwapBoard.tsx:34-42 | on all seven mock shifts, user-1 works on the day of shift-4, so req-1 is a conflict |
| MockScenario.JohnSeesConflict | src/pages/SwapBoard.tsx:91-103 | on the full mock fixture, user-1's board shows req-1 alone, with a disabled "Shift Conflict" button |
| MockScenario.LifecycleWithoutGuards | src/contexts/ShiftContext.tsx:102-145 | volunteering, approving and then rejecting req-1 is allowed, and each step overwrites the status |

## Left out

- Toasts, `console.error` and the simulated network delays. `login` and `refreshData` are each taken as one atomic step. The `try`/`catch` branches that only log are not modelled, because the awaited timer never fails.
- The loading of the mock records after sign-in (the effect at src/contexts/ShiftContext.tsx:50-70). It copies the static fixture into the registry. The model takes the lists as parameters instead.
- Restoring the session from browser storage on mount, and the JSON encoding of the stored user (src/contexts/AuthContext.tsx:24-36). Storage is an abstract optional slot.
- Id generation from `Date.now()` and ISO timestamps. The fresh id and the clock value are parameters, so ids are not assumed unique.
- Date parsing and formatting. `Dashboard.UpcomingShifts`: on day numbers it reads the test `isAfter(new Date(date), today) || date === format(today)` as "today or later". It does not model how a UTC-midnight parse of the date string compares with the local clock. In time zones behind UTC that comparison can drop tomorrow's shifts.
- `SwapBoard.SameDayCount` reads the static shift fixture, as the page does, not the registry's list. The model takes that fixture as its `shifts` argument.
- The cards render nothing when their shift or requester is missing from the fixture (src/components/common/SwapRequestCard.tsx:40). `SwapBoard.BoardActions` and `RequestHistory.TabActions` model the action of every card that the map produces.
- `ApprovalQueue`, which only forwards ids to approve and reject. Also Analytics (static figures, floating-point percentages, random bar heights), the layouts, navigation, the Export button's alert, the dialog's `onOpenChange`, the Dashboard's choice of the shift for the dialog, and all JSX rendering.
- `ShiftContext.RefreshData`: the brief `isLoading = true` between the two halves of the refresh is not observable in the atomic step, so it is not stated.
- Two missing imports. src/pages/SwapBoard.tsx:22 calls `useState`, but line 2 imports only `React`. src/pages/RequestHistory.tsx:20 calls `useAuth`, which that file never imports. As written, both pages would throw a `ReferenceError` on their first render. The model treats the names as bound to React's hook and to the hook of src/contexts/AuthContext.tsx, which is evidently what was meant.
