/**
 * The "Request Shift Swap" dialog of
 * src/components/modals/CreateSwapRequestModal.tsx: a reason field, a
 * Submit button enabled only for a reason that is not blank, and a Cancel
 * button.
 */
module SwapModal {
  import opened Types
  import opened ShiftContext

  /**
   * The characters `String.prototype.trim` strips: the WhiteSpace and
   * LineTerminator code points of ECMA-262 (sections 12.2 and 12.3).
   */
  predicate IsSpace(c: char)
  {
    || c == '\t' || c == '\n' || c == '\U{B}' || c == '\U{C}' || c == '\r' || c == ' '
    || c == '\U{A0}' || c == '\U{1680}' || ('\U{2000}' <= c <= '\U{200A}')
    || c == '\U{2028}' || c == '\U{2029}' || c == '\U{202F}' || c == '\U{205F}'
    || c == '\U{3000}' || c == '\U{FEFF}'
  }

  predicate IsBlank(s: string)
  {
    forall i :: 0 <= i < |s| ==> IsSpace(s[i])
  }

  /** Drops the leading spaces. */
  function TrimStart(s: string): (r: string)
    ensures |r| <= |s| && r == s[|s| - |r|..]
    ensures forall i :: 0 <= i < |s| - |r| ==> IsSpace(s[i])
    ensures |r| > 0 ==> !IsSpace(r[0])
    decreases |s|
  {
    if |s| > 0 && IsSpace(s[0]) then TrimStart(s[1..]) else s
  }

  /** Drops the trailing spaces. */
  function TrimEnd(s: string): (r: string)
    ensures |r| <= |s| && r == s[..|r|]
    ensures forall i :: |r| <= i < |s| ==> IsSpace(s[i])
    ensures |r| > 0 ==> !IsSpace(r[|r| - 1])
    decreases |s|
  {
    if |s| > 0 && IsSpace(s[|s| - 1]) then TrimEnd(s[..|s| - 1]) else s
  }

  /** `r` is `s` starting at index `i`, with only spaces cut off before and after it. */
  predicate TrimmedAt(s: string, r: string, i: int)
  {
    && 0 <= i <= |s| - |r|
    && r == s[i..i + |r|]
    && (forall k :: 0 <= k < i ==> IsSpace(s[k]))
    && (forall k :: i + |r| <= k < |s| ==> IsSpace(s[k]))
  }

  /** Removes the leading and trailing whitespace, as JavaScript's string `trim` does. */
  function Trim(s: string): (r: string)
    ensures |r| > 0 ==> !IsSpace(r[0]) && !IsSpace(r[|r| - 1])
    ensures exists i :: TrimmedAt(s, r, i)
  {
    var t := TrimStart(s);
    var r := TrimEnd(t);
    assert TrimmedAt(s, r, |s| - |t|);
    r
  }

  /** The trimmed reason is empty, and so falsy, exactly when the reason is blank. */
  lemma TrimEmptyIffBlank(s: string)
    ensures Trim(s) == [] <==> IsBlank(s)
  {
  }

  datatype ModalState = ModalState(reason: string, isSubmitting: bool)

  const Fresh: ModalState := ModalState("", false)

  /**
   * The Submit button is disabled while the reason is blank or a submit is
   * under way (src/components/modals/CreateSwapRequestModal.tsx:75).
   */
  function SubmitDisabled(m: ModalState): (b: bool)
    ensures b <==> IsBlank(m.reason) || m.isSubmitting
  {
    TrimEmptyIffBlank(m.reason);
    Trim(m.reason) == [] || m.isSubmitting
  }

  /** `onChange`: the field's text becomes the reason. */
  function EditReason(m: ModalState, text: string): (r: ModalState)
    ensures r.reason == text && r.isSubmitting == m.isSubmitting
  {
    m.(reason := text)
  }

  /** The dialog's state, the request list, and whether `onClose` was called. */
  datatype ModalStep = ModalStep(modal: ModalState, requests: seq<SwapRequest>, closeCalled: bool)

  /**
   * `handleSubmit`: creates a request for the dialog's shift with the reason
   * as typed, then resets the dialog and closes it.
   */
  function HandleSubmit(
    m: ModalState, shift: Shift, reqs: seq<SwapRequest>, current: Option<User>,
    newId: RequestId, now: Timestamp): (r: ModalStep)
    ensures r.requests == CreateSwapRequest(reqs, current, newId, shift.id, m.reason, now)
    ensures r.modal.reason == [] && !r.modal.isSubmitting
    ensures r.closeCalled
  {
    ModalStep(Fresh, CreateSwapRequest(reqs, current, newId, shift.id, m.reason, now), true)
  }

  /** A click on Submit: nothing happens while it is disabled. */
  function PressSubmit(
    m: ModalState, shift: Shift, reqs: seq<SwapRequest>, current: Option<User>,
    newId: RequestId, now: Timestamp): (r: ModalStep)
    ensures SubmitDisabled(m) ==> r == ModalStep(m, reqs, false)
    ensures !SubmitDisabled(m) ==> r.modal == Fresh && r.closeCalled
    ensures !SubmitDisabled(m) ==> r.requests == CreateSwapRequest(reqs, current, newId, shift.id, m.reason, now)
    ensures !SubmitDisabled(m) && current.None? ==> r.requests == reqs
    ensures !SubmitDisabled(m) && current.Some? ==>
      && |r.requests| == |reqs| + 1 && r.requests[..|reqs|] == reqs
      && r.requests[|reqs|] == SwapRequest(newId, current.value.id, shift.id, m.reason, Open, None, now, now)
  {
    if SubmitDisabled(m) then ModalStep(m, reqs, false)
    else HandleSubmit(m, shift, reqs, current, newId, now)
  }

  /** A click on Cancel: closes the dialog unless a submit is under way, and creates nothing. */
  function PressCancel(m: ModalState, reqs: seq<SwapRequest>): (r: ModalStep)
    ensures r.requests == reqs && r.modal == m
    ensures r.closeCalled <==> !m.isSubmitting
  {
    ModalStep(m, reqs, !m.isSubmitting)
  }

  /** Every request the dialog creates carries a reason that is not blank. */
  lemma SubmittedReasonNotBlank(
    m: ModalState, shift: Shift, reqs: seq<SwapRequest>, user: User, newId: RequestId, now: Timestamp)
    ensures var r := PressSubmit(m, shift, reqs, Some(user), newId, now);
      |r.requests| > |reqs| ==> !IsBlank(r.requests[|reqs|].reason) && !m.isSubmitting
  {
  }
}
