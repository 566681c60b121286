/** The outcomes of accepting a mentorship request and their HTTP status codes. */
module Messages {

  /** One constructor per message constant the operation can return. */
  datatype Message =
    | MentorshipRelationRequestDoesNotExist
    | UserDoesNotExist
    | NotPendingStateRelation
    | CantAcceptUninvolvedMentorRelation
    | CantAcceptMentorReqSentByUser
    | CantAcceptWhileInARelation
    | MentorshipRelationWasAcceptedSuccessfully

  /** The two outcomes that report a missing record. */
  predicate IsNotFound(m: Message)
  {
    m == MentorshipRelationRequestDoesNotExist || m == UserDoesNotExist
  }

  /** The status code that accompanies each message: 404 for a missing record,
      200 for the acceptance, 400 for every rule the request breaks. */
  function Status(m: Message): (code: int)
    ensures code == 404 <==> IsNotFound(m)
    ensures code == 200 <==> m == MentorshipRelationWasAcceptedSuccessfully
    ensures code == 400 <==> !IsNotFound(m) && m != MentorshipRelationWasAcceptedSuccessfully
  {
    match m
    case MentorshipRelationRequestDoesNotExist => 404
    case UserDoesNotExist => 404
    case NotPendingStateRelation => 400
    case CantAcceptUninvolvedMentorRelation => 400
    case CantAcceptMentorReqSentByUser => 400
    case CantAcceptWhileInARelation => 400
    case MentorshipRelationWasAcceptedSuccessfully => 200
  }
}
