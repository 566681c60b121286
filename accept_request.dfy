/** Accepting a mentorship relation request: the ordered validation chain, the
    store the operation reads and updates, and what follows from both. */
module MentorshipRelationDao {
  import opened Models
  import opened Messages

  /** What the operation has loaded before it validates: the acting user's
      identifier and the records found for the two identifiers. */
  datatype AcceptContext = AcceptContext(actor: int, relation: Option<Relation>, user: Option<User>)

  function Load(relations: map<int, Relation>, users: map<int, User>, userId: int, relationId: int): (ctx: AcceptContext)
    ensures ctx.actor == userId
    ensures ctx.relation.Some? <==> relationId in relations
    ensures ctx.user.Some? <==> userId in users
    ensures ctx.relation.Some? ==> ctx.relation.value == relations[relationId]
    ensures ctx.user.Some? ==> ctx.user.value == users[userId]
  {
    AcceptContext(userId, Find(relations, relationId), Find(users, userId))
  }

  /** The rejection conditions of accepting a request. */
  datatype Check =
    | RelationExists
    | UserExists
    | RelationIsPending
    | ActorIsInvolved
    | ActorIsNotRequester
    | ActorHasNoCurrentRelation

  /** The order in which the conditions are checked; the first one violated
      decides the outcome. */
  const AcceptChecks: seq<Check> :=
    [RelationExists, UserExists, RelationIsPending, ActorIsInvolved, ActorIsNotRequester, ActorHasNoCurrentRelation]

  /** The checks by position, for proofs that follow the chain step by step. */
  lemma AcceptChecksOrder()
    ensures |AcceptChecks| == 6
    ensures AcceptChecks[0] == RelationExists && AcceptChecks[1] == UserExists && AcceptChecks[2] == RelationIsPending
    ensures AcceptChecks[3] == ActorIsInvolved && AcceptChecks[4] == ActorIsNotRequester && AcceptChecks[5] == ActorHasNoCurrentRelation
  {
  }

  /** Whether the loaded context breaks check `c`. Each check looks only at the
      records it is about, so the checks are independent of each other. */
  predicate Violates(c: Check, ctx: AcceptContext)
  {
    match c
    case RelationExists => ctx.relation.None?
    case UserExists => ctx.user.None?
    case RelationIsPending => ctx.relation.Some? && ctx.relation.value.state != Pending
    case ActorIsInvolved => ctx.relation.Some? && !ctx.relation.value.Involves(ctx.actor)
    case ActorIsNotRequester => ctx.relation.Some? && ctx.actor == ctx.relation.value.actionUserId
    case ActorHasNoCurrentRelation => ctx.user.Some? && ctx.user.value.currentMentorshipRole.Some?
  }

  /** The message returned when check `c` is the first one violated. */
  function Reason(c: Check): (m: Message)
    ensures m != MentorshipRelationWasAcceptedSuccessfully
    ensures IsNotFound(m) <==> c == RelationExists || c == UserExists
  {
    match c
    case RelationExists => MentorshipRelationRequestDoesNotExist
    case UserExists => UserDoesNotExist
    case RelationIsPending => NotPendingStateRelation
    case ActorIsInvolved => CantAcceptUninvolvedMentorRelation
    case ActorIsNotRequester => CantAcceptMentorReqSentByUser
    case ActorHasNoCurrentRelation => CantAcceptWhileInARelation
  }

  /** The position of the first check in `checks` that `ctx` violates, or
      `|checks|` when it violates none. */
  function FirstViolation(checks: seq<Check>, ctx: AcceptContext): (i: nat)
    ensures i <= |checks|
    ensures forall j :: 0 <= j < i ==> !Violates(checks[j], ctx)
    ensures i < |checks| ==> Violates(checks[i], ctx)
  {
    if checks == [] then 0
    else if Violates(checks[0], ctx) then 0
    else 1 + FirstViolation(checks[1..], ctx)
  }

  /** Everything an accepted request needs, stated directly on the records. */
  predicate Eligible(ctx: AcceptContext)
  {
    ctx.relation.Some? && ctx.user.Some? &&
    ctx.relation.value.state == Pending &&
    ctx.relation.value.Involves(ctx.actor) &&
    ctx.actor != ctx.relation.value.actionUserId &&
    ctx.user.value.currentMentorshipRole.None?
  }

  /** The message for a loaded context: that of the first violated check, or
      the acceptance when all of them pass. */
  function Decide(ctx: AcceptContext): (m: Message)
    ensures m == MentorshipRelationWasAcceptedSuccessfully <==> Eligible(ctx)
  {
    AcceptChecksOrder();
    var checks := AcceptChecks;
    var i := FirstViolation(checks, ctx);
    if i == |checks| then MentorshipRelationWasAcceptedSuccessfully else Reason(checks[i])
  }

  /** The message `accept_request(userId, relationId)` returns on a store. */
  function AcceptOutcome(relations: map<int, Relation>, users: map<int, User>, userId: int, relationId: int): (m: Message)
    ensures IsNotFound(m) <==> relationId !in relations || userId !in users
    ensures m == MentorshipRelationRequestDoesNotExist <==> relationId !in relations
    ensures m == MentorshipRelationWasAcceptedSuccessfully <==>
              relationId in relations && userId in users && relations[relationId].state == Pending &&
              relations[relationId].Involves(userId) && userId != relations[relationId].actionUserId &&
              users[userId].currentMentorshipRole.None?
  {
    var ctx := Load(relations, users, userId, relationId);
    DecidePrecedence(ctx);
    Decide(ctx)
  }

  /** The relations after `accept_request(userId, relationId)`: the one relation
      moves to ACCEPTED when the request is accepted, and nothing else changes. */
  function AcceptEffect(relations: map<int, Relation>, users: map<int, User>, userId: int, relationId: int): (after: map<int, Relation>)
    ensures after.Keys == relations.Keys
    ensures forall k :: k in relations && k != relationId ==> after[k] == relations[k]
    ensures AcceptOutcome(relations, users, userId, relationId) != MentorshipRelationWasAcceptedSuccessfully ==> after == relations
    ensures AcceptOutcome(relations, users, userId, relationId) == MentorshipRelationWasAcceptedSuccessfully ==>
              relationId in relations && relations[relationId].state == Pending &&
              after[relationId] == relations[relationId].(state := Accepted)
  {
    if AcceptOutcome(relations, users, userId, relationId) == MentorshipRelationWasAcceptedSuccessfully
    then relations[relationId := relations[relationId].(state := Accepted)]
    else relations
  }

  // ---------------------------------------------------------------------------
  // The order of the checks

  /** `i` is the first violated position exactly when every earlier check
      passes and check `i` fails. */
  lemma FirstViolationAt(checks: seq<Check>, ctx: AcceptContext, i: nat)
    requires i < |checks| && Violates(checks[i], ctx)
    requires forall j :: 0 <= j < i ==> !Violates(checks[j], ctx)
    ensures FirstViolation(checks, ctx) == i
  {
  }

  /** The precedence of the outcomes: each message is returned exactly when
      its condition is the first one, in check order, that the context breaks. */
  lemma DecidePrecedence(ctx: AcceptContext)
    ensures Decide(ctx) == MentorshipRelationRequestDoesNotExist <==> ctx.relation.None?
    ensures Decide(ctx) == UserDoesNotExist <==> ctx.relation.Some? && ctx.user.None?
    ensures Decide(ctx) == NotPendingStateRelation <==>
              ctx.relation.Some? && ctx.user.Some? && ctx.relation.value.state != Pending
    ensures Decide(ctx) == CantAcceptUninvolvedMentorRelation <==>
              ctx.relation.Some? && ctx.user.Some? && ctx.relation.value.state == Pending &&
              !ctx.relation.value.Involves(ctx.actor)
    ensures Decide(ctx) == CantAcceptMentorReqSentByUser <==>
              ctx.relation.Some? && ctx.user.Some? && ctx.relation.value.state == Pending &&
              ctx.relation.value.Involves(ctx.actor) && ctx.actor == ctx.relation.value.actionUserId
    ensures Decide(ctx) == CantAcceptWhileInARelation <==>
              ctx.relation.Some? && ctx.user.Some? && ctx.relation.value.state == Pending &&
              ctx.relation.value.Involves(ctx.actor) && ctx.actor != ctx.relation.value.actionUserId &&
              ctx.user.value.currentMentorshipRole.Some?
  {
    var checks := AcceptChecks;
    var i := FirstViolation(checks, ctx);
    AcceptChecksOrder();
    if i < |checks| {
      assert Decide(ctx) == Reason(checks[i]);
    }
  }

  /** In any order of the checks, an input that breaks exactly one of them
      stops at that one. */
  lemma {:induction false} SingleViolationAnyOrder(checks: seq<Check>, ctx: AcceptContext, c: Check)
    requires c in checks && Violates(c, ctx)
    requires forall d :: d in checks && d != c ==> !Violates(d, ctx)
    ensures FirstViolation(checks, ctx) < |checks| && checks[FirstViolation(checks, ctx)] == c
  {
  }

  /** Hence an input that breaks exactly one condition gets that condition's
      message, and it would get the same message under any other order. */
  lemma SingleViolation(ctx: AcceptContext, c: Check)
    requires c in AcceptChecks && Violates(c, ctx)
    requires forall d :: d in AcceptChecks && d != c ==> !Violates(d, ctx)
    ensures Decide(ctx) == Reason(c)
  {
    SingleViolationAnyOrder(AcceptChecks, ctx, c);
  }

  /** The unknown-user case breaks two checks at once: the user is missing and
      is not a participant. The chosen order reports the missing user; with
      involvement checked before existence, the same input would be reported
      as uninvolved. */
  lemma UnknownUserFixesOrder(ctx: AcceptContext)
    requires ctx.relation.Some? && ctx.relation.value.state == Pending
    requires ctx.user.None? && !ctx.relation.value.Involves(ctx.actor)
    ensures Decide(ctx) == UserDoesNotExist
    ensures var other := [RelationExists, ActorIsInvolved, UserExists, RelationIsPending, ActorIsNotRequester, ActorHasNoCurrentRelation];
            FirstViolation(other, ctx) == 1 && Reason(other[1]) == CantAcceptUninvolvedMentorRelation
  {
    DecidePrecedence(ctx);
    var other := [RelationExists, ActorIsInvolved, UserExists, RelationIsPending, ActorIsNotRequester, ActorHasNoCurrentRelation];
    FirstViolationAt(other, ctx, 1);
  }

  // ---------------------------------------------------------------------------
  // The outcomes the test cases observe, on any store

  lemma MissingRelation(relations: map<int, Relation>, users: map<int, User>, userId: int, relationId: int)
    requires relationId !in relations
    ensures AcceptOutcome(relations, users, userId, relationId) == MentorshipRelationRequestDoesNotExist
    ensures Status(AcceptOutcome(relations, users, userId, relationId)) == 404
    ensures AcceptEffect(relations, users, userId, relationId) == relations
  {
    DecidePrecedence(Load(relations, users, userId, relationId));
  }

  lemma MissingUser(relations: map<int, Relation>, users: map<int, User>, userId: int, relationId: int)
    requires relationId in relations && userId !in users
    ensures AcceptOutcome(relations, users, userId, relationId) == UserDoesNotExist
    ensures Status(AcceptOutcome(relations, users, userId, relationId)) == 404
    ensures AcceptEffect(relations, users, userId, relationId) == relations
  {
    DecidePrecedence(Load(relations, users, userId, relationId));
  }

  /** ACCEPTED, COMPLETED, CANCELLED and REJECTED relations all give the same
      message, whoever the existing acting user is. */
  lemma NotPending(relations: map<int, Relation>, users: map<int, User>, userId: int, relationId: int)
    requires relationId in relations && userId in users
    requires relations[relationId].state != Pending
    ensures AcceptOutcome(relations, users, userId, relationId) == NotPendingStateRelation
    ensures Status(AcceptOutcome(relations, users, userId, relationId)) == 400
    ensures AcceptEffect(relations, users, userId, relationId) == relations
  {
    DecidePrecedence(Load(relations, users, userId, relationId));
  }

  lemma Uninvolved(relations: map<int, Relation>, users: map<int, User>, userId: int, relationId: int)
    requires relationId in relations && userId in users
    requires relations[relationId].state == Pending && !relations[relationId].Involves(userId)
    ensures AcceptOutcome(relations, users, userId, relationId) == CantAcceptUninvolvedMentorRelation
    ensures Status(AcceptOutcome(relations, users, userId, relationId)) == 400
    ensures AcceptEffect(relations, users, userId, relationId) == relations
  {
    DecidePrecedence(Load(relations, users, userId, relationId));
  }

  lemma RequesterAccepts(relations: map<int, Relation>, users: map<int, User>, userId: int, relationId: int)
    requires relationId in relations && userId in users
    requires relations[relationId].state == Pending && relations[relationId].Involves(userId)
    requires userId == relations[relationId].actionUserId
    ensures AcceptOutcome(relations, users, userId, relationId) == CantAcceptMentorReqSentByUser
    ensures Status(AcceptOutcome(relations, users, userId, relationId)) == 400
    ensures AcceptEffect(relations, users, userId, relationId) == relations
  {
    DecidePrecedence(Load(relations, users, userId, relationId));
  }

  /** The receiver of a pending request: refused while holding a role in a
      relation, accepted otherwise. */
  lemma ReceiverAccepts(relations: map<int, Relation>, users: map<int, User>, userId: int, relationId: int)
    requires relationId in relations && userId in users
    requires relations[relationId].state == Pending && relations[relationId].Involves(userId)
    requires userId != relations[relationId].actionUserId
    ensures users[userId].currentMentorshipRole.Some? ==>
              AcceptOutcome(relations, users, userId, relationId) == CantAcceptWhileInARelation &&
              Status(AcceptOutcome(relations, users, userId, relationId)) == 400 &&
              AcceptEffect(relations, users, userId, relationId) == relations
    ensures users[userId].currentMentorshipRole.None? ==>
              AcceptOutcome(relations, users, userId, relationId) == MentorshipRelationWasAcceptedSuccessfully &&
              Status(AcceptOutcome(relations, users, userId, relationId)) == 200 &&
              AcceptEffect(relations, users, userId, relationId)[relationId].state == Accepted
  {
    DecidePrecedence(Load(relations, users, userId, relationId));
  }

  // ---------------------------------------------------------------------------
  // The state machine

  /** Accepting moves a relation only from PENDING to ACCEPTED: an ACCEPTED
      or terminal relation is never changed, and no other field moves. */
  lemma AcceptOnlyFromPending(relations: map<int, Relation>, users: map<int, User>, userId: int, relationId: int, k: int)
    requires k in relations
    ensures var after := AcceptEffect(relations, users, userId, relationId);
            k in after &&
            (after[k] == relations[k] ||
             (k == relationId && relations[k].state == Pending && after[k] == relations[k].(state := Accepted)))
    ensures relations[k].state != Pending ==> AcceptEffect(relations, users, userId, relationId)[k] == relations[k]
    ensures IsTerminal(AcceptEffect(relations, users, userId, relationId)[k].state) <==> IsTerminal(relations[k].state)
  {
  }

  /** No double acceptance: once a request has been accepted, a second call on
      the same relation, by anyone, does not succeed again; an existing user
      gets NOT_PENDING_STATE_RELATION. */
  lemma NoDoubleAcceptance(relations: map<int, Relation>, users: map<int, User>, first: int, second: int, relationId: int)
    requires AcceptOutcome(relations, users, first, relationId) == MentorshipRelationWasAcceptedSuccessfully
    ensures var after := AcceptEffect(relations, users, first, relationId);
            AcceptOutcome(after, users, second, relationId) != MentorshipRelationWasAcceptedSuccessfully &&
            AcceptEffect(after, users, second, relationId) == after &&
            (second in users ==> AcceptOutcome(after, users, second, relationId) == NotPendingStateRelation)
  {
    var after := AcceptEffect(relations, users, first, relationId);
    DecidePrecedence(Load(after, users, second, relationId));
  }

  /** Accepting keeps every relation well formed. */
  lemma AcceptKeepsWellFormed(relations: map<int, Relation>, users: map<int, User>, userId: int, relationId: int)
    requires forall k :: k in relations ==> relations[k].WellFormed()
    ensures var after := AcceptEffect(relations, users, userId, relationId);
            forall k :: k in after ==> after[k].WellFormed()
  {
  }

  // ---------------------------------------------------------------------------
  // The store and the operation

  /** The persisted users and relations, keyed by identifier. */
  class Store {
    var relations: map<int, Relation>
    var users: map<int, User>

    constructor (relations: map<int, Relation>, users: map<int, User>)
      ensures this.relations == relations && this.users == users
    {
      this.relations := relations;
      this.users := users;
    }

    /** `accept_request(userId, relationId)`: load both records, check the
        conditions in order, stop at the first one broken, and otherwise move
        the relation to ACCEPTED. Users are never written. */
    method Accept(userId: int, relationId: int) returns (message: Message, status: int)
      modifies this`relations
      ensures message == AcceptOutcome(old(relations), users, userId, relationId)
      ensures status == Status(message)
      ensures relations == AcceptEffect(old(relations), users, userId, relationId)
    {
      ghost var ctx := Load(relations, users, userId, relationId);
      ghost var checks := AcceptChecks;
      AcceptChecksOrder();

      if relationId !in relations {
        FirstViolationAt(checks, ctx, 0);
        return MentorshipRelationRequestDoesNotExist, 404;
      }
      var relation := relations[relationId];
      if userId !in users {
        FirstViolationAt(checks, ctx, 1);
        return UserDoesNotExist, 404;
      }
      var user := users[userId];
      if relation.state != Pending {
        FirstViolationAt(checks, ctx, 2);
        return NotPendingStateRelation, 400;
      }
      if userId != relation.mentorId && userId != relation.menteeId {
        FirstViolationAt(checks, ctx, 3);
        return CantAcceptUninvolvedMentorRelation, 400;
      }
      if userId == relation.actionUserId {
        FirstViolationAt(checks, ctx, 4);
        return CantAcceptMentorReqSentByUser, 400;
      }
      if user.currentMentorshipRole.Some? {
        FirstViolationAt(checks, ctx, 5);
        return CantAcceptWhileInARelation, 400;
      }
      relations := relations[relationId := relation.(state := Accepted)];
      return MentorshipRelationWasAcceptedSuccessfully, 200;
    }
  }
}
