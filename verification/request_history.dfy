/**
 * The Request History page (src/pages/RequestHistory.tsx): the user's
 * history split into the "Requested by Me" and "Volunteered by Me" tabs,
 * and the cancel action offered on a card.
 */
module RequestHistory {
  import opened Types
  import opened Filtering
  import opened ShiftContext

  /** The criterion of the "I Requested" tab: the signed-in user posted the request (src/pages/RequestHistory.tsx:25). */
  function RequestedBy(current: Option<User>): SwapRequest -> bool
  {
    (q: SwapRequest) => Some(q.requesterId) == CurrentId(current)
  }

  /**
   * The criterion of the "I Volunteered" tab: the request's volunteer is the
   * signed-in user, or, with nobody signed in, the request has no volunteer
   * (src/pages/RequestHistory.tsx:29).
   */
  function VolunteeredBy(current: Option<User>): SwapRequest -> bool
  {
    (q: SwapRequest) => q.volunteerId == CurrentId(current)
  }

  /** The "Requested by Me" tab. */
  function RequestedSwaps(history: seq<SwapRequest>, current: Option<User>): (r: seq<SwapRequest>)
    ensures current.None? ==> r == []
    ensures current.Some? ==> forall q :: q in r <==> q in history && q.requesterId == current.value.id
    ensures IsSubsequence(r, history)
    ensures forall q :: multiset(r)[q] == (if current.Some? && q.requesterId == current.value.id then multiset(history)[q] else 0)
  {
    Filter(history, RequestedBy(current))
  }

  /** The "Volunteered by Me" tab; with nobody signed in it lists the requests without a volunteer. */
  function VolunteeredSwaps(history: seq<SwapRequest>, current: Option<User>): (r: seq<SwapRequest>)
    ensures current.Some? ==> forall q :: q in r <==> q in history && q.volunteerId == Some(current.value.id)
    ensures current.None? ==> forall q :: q in r <==> q in history && q.volunteerId.None?
    ensures IsSubsequence(r, history)
    ensures forall q :: multiset(r)[q] == if q.volunteerId == CurrentId(current) then multiset(history)[q] else 0
  {
    Filter(history, VolunteeredBy(current))
  }

  /** Every entry of the history is on at least one tab, and the tabs hold nothing else. */
  lemma TabsCoverHistory(reqs: seq<SwapRequest>, current: Option<User>)
    ensures var h := UserRequestHistory(reqs, current);
      forall q :: q in h <==> q in RequestedSwaps(h, current) || q in VolunteeredSwaps(h, current)
  {
  }

  /**
   * Read from the whole registry, the first tab is every request the user
   * posted and the second every request the user volunteered for, each in
   * registry order.
   */
  lemma TabsAreRegistryFilters(reqs: seq<SwapRequest>, current: Option<User>)
    ensures RequestedSwaps(UserRequestHistory(reqs, current), current) == Filter(reqs, RequestedBy(current))
    ensures VolunteeredSwaps(UserRequestHistory(reqs, current), current) == Filter(reqs, VolunteeredBy(current))
  {
    var req := (q: SwapRequest) => IsInHistory(q, current) && Some(q.requesterId) == CurrentId(current);
    var vol := (q: SwapRequest) => IsInHistory(q, current) && q.volunteerId == CurrentId(current);
    FilterFilter(reqs, InHistory(current), RequestedBy(current), req);
    FilterCongruent(reqs, req, RequestedBy(current));
    FilterFilter(reqs, InHistory(current), VolunteeredBy(current), vol);
    FilterCongruent(reqs, vol, VolunteeredBy(current));
  }

  /** `canCancel`: the request is still open and the user posted it. */
  function CanCancel(q: SwapRequest, current: Option<User>): (b: bool)
    ensures b <==> q.status == Open && current.Some? && q.requesterId == current.value.id
  {
    q.status == Open && Some(q.requesterId) == CurrentId(current)
  }

  const CancelLabel: string := "Cancel Request"

  datatype CancelAction = CancelAction(title: string, requestId: RequestId)

  /** The primary action of each card of a tab: present exactly when the request can be cancelled. */
  function TabActions(requests: seq<SwapRequest>, current: Option<User>): (r: seq<Option<CancelAction>>)
    ensures |r| == |requests|
    ensures forall i :: 0 <= i < |r| ==>
      (r[i].Some? <==> requests[i].status == Open && current.Some? && requests[i].requesterId == current.value.id)
    ensures forall i :: 0 <= i < |r| && r[i].Some? ==>
      r[i].value.requestId == requests[i].id && r[i].value.title == CancelLabel
  {
    seq(|requests|, i requires 0 <= i < |requests| =>
      if CanCancel(requests[i], current) then Some(CancelAction(CancelLabel, requests[i].id)) else None)
  }

  /** `handleCancel(request.id)`: cancels the card's request and nothing else. */
  function PressCancel(a: CancelAction, reqs: seq<SwapRequest>, now: Timestamp): (r: seq<SwapRequest>)
    ensures |r| == |reqs|
    ensures forall i :: 0 <= i < |reqs| ==>
      if reqs[i].id == a.requestId then
        && SameIdentity(r[i], reqs[i]) && r[i].volunteerId == reqs[i].volunteerId
        && r[i].status == Cancelled && r[i].updatedAt == now
      else r[i] == reqs[i]
  {
    CancelSwapRequest(reqs, a.requestId, now)
  }

  /**
   * The action of a card, when offered, cancels the request the card shows,
   * which was open and posted by the signed-in user.
   */
  lemma CancelActionTargetsCard(tab: seq<SwapRequest>, current: Option<User>, i: nat, reqs: seq<SwapRequest>, now: Timestamp)
    requires i < |tab|
    requires TabActions(tab, current)[i].Some?
    ensures tab[i].status == Open && current.Some? && tab[i].requesterId == current.value.id
    ensures var r := PressCancel(TabActions(tab, current)[i].value, reqs, now);
      forall k :: 0 <= k < |reqs| && reqs[k].id == tab[i].id ==> r[k].status == Cancelled
  {
  }
}
