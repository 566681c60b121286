/** Records of the entity store: users and mentorship relations. */
module Models {

  datatype Option<+T> = None | Some(value: T)

  /** The lifecycle state of a mentorship relation. */
  datatype MentorshipRelationState = Pending | Accepted | Rejected | Cancelled | Completed

  /** States from which no lifecycle transition applies. */
  predicate IsTerminal(s: MentorshipRelationState)
  {
    s == Rejected || s == Cancelled || s == Completed
  }

  /** A mentorship relation request. The timestamps and the notes are opaque
      to the lifecycle operations and are carried along untouched. */
  datatype Relation = Relation(
    mentorId: int,
    menteeId: int,
    actionUserId: int,        // the requester
    state: MentorshipRelationState,
    creationDate: int,
    endDate: int,
    notes: string)
  {
    /** True when `userId` is the mentor or the mentee of this relation. */
    predicate Involves(userId: int)
    {
      userId == mentorId || userId == menteeId
    }

    /** What holds of a relation as it is created: two distinct participants,
        one of whom sent the request. */
    predicate WellFormed()
    {
      mentorId != menteeId && Involves(actionUserId)
    }
  }

  /** A user, as far as the lifecycle operations look at it: the identifier of
      the relation in which the user currently holds a role, if any. */
  datatype User = User(currentMentorshipRole: Option<int>)

  /** Lookup by identifier: not found is `None`. */
  function Find<K, V>(m: map<K, V>, k: K): (r: Option<V>)
    ensures r.Some? <==> k in m
    ensures r.Some? ==> r.value == m[k]
  {
    if k in m then Some(m[k]) else None
  }
}
