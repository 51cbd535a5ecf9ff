/** The transition table of a payment intent. */
module StateTable {
  import opened Domain

  function Transitions(from: PIStatus): seq<PIStatus> {
    match from
    case Created => [RequiresAction, Processing, Failed, Expired]
    case RequiresAction => [Succeeded, Processing, Failed, Expired]
    case Processing => [Succeeded, Failed, RequiresAction]
    case Succeeded => [PartiallyRefunded, Refunded]
    case _ => []
  }

  predicate IsValidTransition(from: PIStatus, to: PIStatus) {
    to in Transitions(from)
  }

  /** A path through the table. */
  predicate Path(p: seq<PIStatus>) {
    forall k :: 0 < k < |p| ==> IsValidTransition(p[k - 1], p[k])
  }

  /** Only an intent some payment step already moved past `created` can succeed, and the two
      outcomes a provider reports are final with respect to each other. */
  lemma OutcomeEdges(from: PIStatus)
    ensures IsValidTransition(from, Succeeded) <==> from in {RequiresAction, Processing}
    ensures IsValidTransition(from, Failed) <==> from in {Created, RequiresAction, Processing}
  {
  }

  /** The rest of the table, by target. */
  lemma OtherEdges(from: PIStatus)
    ensures IsValidTransition(from, RequiresAction) <==> from in {Created, Processing}
    ensures IsValidTransition(from, Processing) <==> from in {Created, RequiresAction}
    ensures IsValidTransition(from, Expired) <==> from in {Created, RequiresAction}
    ensures IsValidTransition(from, Refunded) <==> from == Succeeded
    ensures IsValidTransition(from, PartiallyRefunded) <==> from == Succeeded
    ensures !IsValidTransition(from, Created)
  {
  }

  /** Along every path of the table, success is never followed by a failure, a retry or a second
      success: whatever comes after it is a refund status. */
  lemma {:induction false} SuccessIsForever(p: seq<PIStatus>, i: nat, j: nat)
    requires Path(p) && i < j < |p| && p[i] == Succeeded
    ensures p[j] in {PartiallyRefunded, Refunded}
    decreases j
  {
    assert IsValidTransition(p[j - 1], p[j]);
    if i < j - 1 {
      SuccessIsForever(p, i, j - 1);
    }
  }
}
