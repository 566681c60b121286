/** The accept-request test cases, replayed against the contracts of
    `MentorshipRelationDao.Store.Accept`: a client that can only see those
    contracts still reaches every expected `(message, status)` pair. */
module AcceptRequestTests {
  import opened Models
  import opened Messages
  import opened MentorshipRelationDao

  /** An identifier that the tests use for a record nobody created. */
  const Unknown := 123

  /** The test fixture: the first user requested a relation in which they are
      the mentor and the second user is the mentee; the relation is PENDING.
      The users' roles come from the base fixture and are parameters here. */
  method SetUp(firstUser: int, secondUser: int, relationId: int, requesterRole: Option<int>, receiverRole: Option<int>)
    returns (store: Store)
    requires firstUser != secondUser
    ensures fresh(store)
    ensures store.users == map[firstUser := User(requesterRole), secondUser := User(receiverRole)]
    ensures store.relations == map[relationId := Relation(firstUser, secondUser, firstUser, Pending, 0, 0, "notes")]
  {
    var relation := Relation(firstUser, secondUser, firstUser, Pending, 0, 0, "notes");
    store := new Store(map[relationId := relation], map[firstUser := User(requesterRole), secondUser := User(receiverRole)]);
  }

  method NonExistingMentorshipRequest(firstUser: int, secondUser: int, relationId: int, requesterRole: Option<int>, receiverRole: Option<int>)
    requires firstUser != secondUser && relationId != Unknown
  {
    var store := SetUp(firstUser, secondUser, relationId, requesterRole, receiverRole);
    MissingRelation(store.relations, store.users, firstUser, Unknown);
    var message, status := store.Accept(firstUser, Unknown);
    assert (message, status) == (MentorshipRelationRequestDoesNotExist, 404);
    assert store.relations[relationId].state == Pending;
  }

  method RequesterTriesToAccept(firstUser: int, secondUser: int, relationId: int, requesterRole: Option<int>, receiverRole: Option<int>)
    requires firstUser != secondUser
  {
    var store := SetUp(firstUser, secondUser, relationId, requesterRole, receiverRole);
    RequesterAccepts(store.relations, store.users, firstUser, relationId);
    var message, status := store.Accept(firstUser, relationId);
    assert (message, status) == (CantAcceptMentorReqSentByUser, 400);
    assert store.relations[relationId].state == Pending;
  }

  method ReceiverAcceptsRequest(firstUser: int, secondUser: int, relationId: int, requesterRole: Option<int>, receiverRole: Option<int>)
    requires firstUser != secondUser
  {
    var store := SetUp(firstUser, secondUser, relationId, requesterRole, receiverRole);
    ReceiverAccepts(store.relations, store.users, secondUser, relationId);
    var message, status := store.Accept(secondUser, relationId);
    if receiverRole.Some? {
      assert (message, status) == (CantAcceptWhileInARelation, 400);
      assert store.relations[relationId].state == Pending;
    } else {
      assert (message, status) == (MentorshipRelationWasAcceptedSuccessfully, 200);
      assert store.relations[relationId].state == Accepted;
    }
  }

  method SenderDoesNotExist(firstUser: int, secondUser: int, relationId: int, requesterRole: Option<int>, receiverRole: Option<int>)
    requires firstUser != secondUser && firstUser != Unknown && secondUser != Unknown
  {
    var store := SetUp(firstUser, secondUser, relationId, requesterRole, receiverRole);
    MissingUser(store.relations, store.users, Unknown, relationId);
    var message, status := store.Accept(Unknown, relationId);
    assert (message, status) == (UserDoesNotExist, 404);
    assert store.relations[relationId].state == Pending;
  }

  /** The test's own write of a relation's state, outside the operation. */
  method OverwriteState(store: Store, relationId: int, state: MentorshipRelationState)
    requires relationId in store.relations
    modifies store`relations
    ensures store.relations == old(store.relations)[relationId := old(store.relations)[relationId].(state := state)]
  {
    store.relations := store.relations[relationId := store.relations[relationId].(state := state)];
  }

  /** The state is overwritten step by step; every non-pending state is
      refused, for the receiver who could otherwise accept. */
  method RequestIsNotInPendingState(firstUser: int, secondUser: int, relationId: int, requesterRole: Option<int>, receiverRole: Option<int>)
    requires firstUser != secondUser
  {
    var store := SetUp(firstUser, secondUser, relationId, requesterRole, receiverRole);

    OverwriteState(store, relationId, Accepted);
    NotPending(store.relations, store.users, secondUser, relationId);
    var message, status := store.Accept(secondUser, relationId);
    assert (message, status) == (NotPendingStateRelation, 400);

    OverwriteState(store, relationId, Completed);
    NotPending(store.relations, store.users, secondUser, relationId);
    message, status := store.Accept(secondUser, relationId);
    assert (message, status) == (NotPendingStateRelation, 400);

    OverwriteState(store, relationId, Cancelled);
    NotPending(store.relations, store.users, secondUser, relationId);
    message, status := store.Accept(secondUser, relationId);
    assert (message, status) == (NotPendingStateRelation, 400);

    OverwriteState(store, relationId, Rejected);
    NotPending(store.relations, store.users, secondUser, relationId);
    message, status := store.Accept(secondUser, relationId);
    assert (message, status) == (NotPendingStateRelation, 400);
  }

  /** Not a case of the test file: a second accept after a successful one
      is refused. */
  method AcceptTwice(firstUser: int, secondUser: int, relationId: int, requesterRole: Option<int>)
    requires firstUser != secondUser
  {
    var store := SetUp(firstUser, secondUser, relationId, requesterRole, None);
    ReceiverAccepts(store.relations, store.users, secondUser, relationId);
    var message, status := store.Accept(secondUser, relationId);
    assert status == 200;
    NotPending(store.relations, store.users, secondUser, relationId);
    message, status := store.Accept(secondUser, relationId);
    assert (message, status) == (NotPendingStateRelation, 400);
  }
}
