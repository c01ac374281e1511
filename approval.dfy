/** `approvePr` (lines 104-144 of src/index.mjs) as a decision: whether an approving review
    is submitted, on which pull request and with which body. The review listing is an input;
    the calls that list and create reviews are not modelled. */
module Approval {

  import opened Wrappers
  import opened JsStrings

  const APPROVED: string := "APPROVED"
  const DEFAULT_APPROVE_MESSAGE: string := "Auto approved based on commit conditions"

  /** What the approval step does: nothing (not reached), stop for a missing pull-request
      number, stop because the pull request is already approved, or submit one review. */
  datatype ReviewAction =
    | NotAttempted
    | NoPrNumber
    | AlreadyApproved(pr: int)
    | Submitted(pr: int, body: string)

  /** `reviews.data.filter(r => r.state === 'APPROVED')`, over the review states. */
  function ApprovedReviews(states: seq<string>): (approved: seq<string>)
    ensures forall s :: s in approved ==> s == APPROVED
    ensures |approved| > 0 <==> APPROVED in states
    ensures |approved| == multiset(states)[APPROVED]
    decreases |states|
  {
    if states == [] then []
    else
      assert states == [states[0]] + states[1..];
      var rest := ApprovedReviews(states[1..]);
      if states[0] == APPROVED then [APPROVED] + rest else rest
  }

  /** `!pr` fails for an absent number and for the number 0. */
  predicate HasPrNumber(pr: Option<int>) {
    pr.Some? && pr.value != 0
  }

  /** A review is submitted exactly when there is a pull-request number and none of its
      reviews is in the APPROVED state; it carries that number and the given body. */
  function ApprovePr(pr: Option<int>, listReviews: int -> seq<string>, body: string): (action: ReviewAction)
    ensures action != NotAttempted
    ensures action == NoPrNumber <==> !HasPrNumber(pr)
    ensures action.Submitted? <==> HasPrNumber(pr) && APPROVED !in listReviews(pr.value)
    ensures action.AlreadyApproved? <==> HasPrNumber(pr) && APPROVED in listReviews(pr.value)
    ensures action.Submitted? || action.AlreadyApproved? ==> action.pr == pr.value
    ensures action.Submitted? ==> action.body == body
  {
    if !HasPrNumber(pr) then NoPrNumber
    else if |ApprovedReviews(listReviews(pr.value))| > 0 then AlreadyApproved(pr.value)
    else Submitted(pr.value, body)
  }

  /** `approveMessage || 'Auto approved based on commit conditions'`: the configured message
      when there is one, the default otherwise; never empty. */
  function ReviewBody(approveMessage: string): (body: string)
    ensures body != ""
    ensures Truthy(approveMessage) ==> body == approveMessage
    ensures !Truthy(approveMessage) ==> body == DEFAULT_APPROVE_MESSAGE
  {
    if Truthy(approveMessage) then approveMessage else DEFAULT_APPROVE_MESSAGE
  }

  /** The `approve` input read as a YAML 1.2 core-schema boolean: exactly the three spellings
      of true request approval, so it never requests where the action's truthiness test
      (line 208) would not. */
  function ApproveFlag(approve: string): (requested: bool)
    ensures requested <==> approve in ["true", "True", "TRUE"]
    ensures requested ==> Truthy(approve)
    ensures approve in ["false", "False", "FALSE"] ==> !requested
  {
    approve in ["true", "True", "TRUE"]
  }

  /** As the action reads it (any non-empty string requests approval), the string "false"
      requests approval; the boolean reading declines it. */
  lemma FalseStringRequestsApproval()
    ensures Truthy("false")
    ensures !ApproveFlag("false")
  {
  }
}
