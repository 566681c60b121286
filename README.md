# Accepting a mentorship relation request

A Dafny model of `MentorshipRelationDAO.accept_request(userId, relationId)` in the
mentorship backend. It covers the operation as its DAO test cases pin it
down. The operation loads a relation and the acting user. It checks six
rejection conditions in a fixed order and stops at the first one broken.
When every condition passes, it moves the relation from PENDING to ACCEPTED.
It returns exactly one `(message, status)` pair.

The DAO's own source is not part of this model. The behaviour is taken from
`tests/mentorship_relation/test_dao_accept_request.py`.

Files:

- `models.dfy` (module `Models`): the records. It holds the relation state
  PENDING, ACCEPTED, REJECTED, CANCELLED or COMPLETED, the `Relation` and
  `User` records, and lookup by identifier.
- `messages.dfy` (module `Messages`): one `Message` per message constant the
  operation returns, and the status code of each.
- `accept_request.dfy` (module `MentorshipRelationDao`): the checks as an
  explicit ordered list `AcceptChecks`. `FirstViolation` finds the first
  check broken. `Decide` and `AcceptOutcome` give the message and
  `AcceptEffect` the relations afterwards. The lemmas follow. The `Store`
  class holds the relations and users maps; its `Accept` method is the
  operation, written as the sequence of early returns.
- `accept_request_tests.dfy` (module `AcceptRequestTests`): each test case of
  the test file, replayed as a client method. It uses only the contracts of
  `Store.Accept` and the lemmas. `AcceptTwice` is not one of the file's test
  cases: it is an extra scenario for the no-double-acceptance property.

The checks, in the order chosen:

1. the relation exists, else `MENTORSHIP_RELATION_REQUEST_DOES_NOT_EXIST`, 404;
2. the acting user exists, else `USER_DOES_NOT_EXIST`, 404;
3. the relation is PENDING, else `NOT_PENDING_STATE_RELATION`, 400;
4. the actor is the mentor or the mentee, else `CANT_ACCEPT_UNINVOLVED_MENTOR_RELATION`, 400;
5. the actor is not the requester, else `CANT_ACCEPT_MENTOR_REQ_SENT_BY_USER`, 400;
6. the actor has no current mentorship role, else `CANT_ACCEPT_WHILE_IN_A_RELATION`, 400.

The model's order agrees with every test case. Most of them break exactly
one condition, and on such inputs the order does not matter:
`SingleViolationAnyOrder` proves that, in any sequence of the checks, an
input that breaks exactly one of them stops at that one. The test at
`test_dao_accept_request.py:82-88` is different: user 123 is both missing and
not a participant of the relation, so it breaks two checks and fixes
user-exists before involvement. `UnknownUserFixesOrder` shows that the order
with involvement first would answer that input with the uninvolved message.
Whether the tests at lines 43-49, 51-65 and 90-119 also break the capacity
check depends on the users' roles, which the base fixture sets and which the
test file does not show; the replays take those roles as parameters.
`DecidePrecedence` states the chosen order outright.

Two choices follow from what the test file observes:

- The capacity check (6) refuses an actor whose `current_mentorship_role` is
  set at all, because the test at `test_dao_accept_request.py:75-76` only
  tells `None` apart from set. The model does not look at which relation the
  role names, or at that relation's state.
- A successful accept changes only the relation's state. The success branch
  of the test (lines 78-80) asserts the new state and nothing about either
  user. So `Store.Accept` may modify only `relations`, and the users map is
  unchanged by construction.

## Model

| member | source | states |
|---|---|---|
| `Messages.Status` | tests/mentorship_relation/test_dao_accept_request.py:43-119 | 404 exactly for the two not-found messages, 200 exactly for the acceptance, 400 for the four rule violations |
| `MentorshipRelationDao.Reason` | tests/mentorship_relation/test_dao_accept_request.py:43-119 | a failed check never yields the success message; it yields a not-found message exactly for the two existence checks |
| `MentorshipRelationDao.FirstViolation` | tests/mentorship_relation/test_dao_accept_request.py:51-65 | the result is the position of the first broken check: every earlier check passes and the one at the result fails, or none fails |
| `Models.Find` | tests/mentorship_relation/test_dao_accept_request.py:43-49 | a lookup finds a record exactly when the identifier is stored, and then it is the stored record |
| `MentorshipRelationDao.Load` | tests/mentorship_relation/test_dao_accept_request.py:82-88 | the operation loads the relation and the acting user by identifier; each is present exactly when stored, and then it is the stored record |
| `MentorshipRelationDao.AcceptOutcome` | tests/mentorship_relation/test_dao_accept_request.py:43-119 | the message on a store: a not-found message exactly when the relation or the user is missing, the relation message exactly when the relation is missing, success exactly when the stored records meet all six conditions |
| `MentorshipRelationDao.Decide` | tests/mentorship_relation/test_dao_accept_request.py:67-80 | the request is accepted if and only if the relation and user exist, the relation is PENDING, the actor is a participant and not the requester, and the actor has no current role |
| `MentorshipRelationDao.AcceptEffect` | tests/mentorship_relation/test_dao_accept_request.py:43-119 | on any failure the relations are unchanged; on success only the target relation changes, only its state, from PENDING to ACCEPTED |
| `MentorshipRelationDao.DecidePrecedence` | tests/mentorship_relation/test_dao_accept_request.py:43-119 | each failure message is returned if and only if its condition is the first broken in check order |
| `MentorshipRelationDao.SingleViolationAnyOrder` | tests/mentorship_relation/test_dao_accept_request.py:43-119 | for any sequence of checks, an input that breaks exactly one of them has that check as its first violation |
| `MentorshipRelationDao.UnknownUserFixesOrder` | tests/mentorship_relation/test_dao_accept_request.py:82-88 | an unknown user on a PENDING relation that does not involve them gets the user-does-not-exist message, while the order with involvement checked first would give the uninvolved message |
| `MentorshipRelationDao.SingleViolation` | tests/mentorship_relation/test_dao_accept_request.py:43-119 | with the chosen order, an input that breaks exactly one condition gets that condition's message |
| `MentorshipRelationDao.MissingRelation` | tests/mentorship_relation/test_dao_accept_request.py:43-49 | an unknown relation id gives the does-not-exist message with 404, and no relation changes |
| `MentorshipRelationDao.MissingUser` | tests/mentorship_relation/test_dao_accept_request.py:82-88 | an unknown user id on an existing relation gives the user-does-not-exist message with 404, and no relation changes |
| `MentorshipRelationDao.NotPending` | tests/mentorship_relation/test_dao_accept_request.py:90-119 | for an existing user and any of ACCEPTED, COMPLETED, CANCELLED or REJECTED, the result is the not-pending message with 400, and nothing changes |
| `MentorshipRelationDao.Uninvolved` | tests/mentorship_relation/test_dao_accept_request.py:56-59 | an existing user who is neither mentor nor mentee of a PENDING relation gets the uninvolved message with 400, and nothing changes |
| `MentorshipRelationDao.RequesterAccepts` | tests/mentorship_relation/test_dao_accept_request.py:51-65 | the requester of a PENDING relation gets the sent-by-user message with 400, and the state stays PENDING |
| `MentorshipRelationDao.ReceiverAccepts` | tests/mentorship_relation/test_dao_accept_request.py:67-80 | the receiver gets the while-in-a-relation message with 400 when holding a current role; otherwise the success message with 200, and the state becomes ACCEPTED |
| `MentorshipRelationDao.AcceptOnlyFromPending` | tests/mentorship_relation/test_dao_accept_request.py:43-119 | a relation either stays as it was or is the target moving from PENDING to ACCEPTED; a non-PENDING relation never changes; no relation enters or leaves a terminal state |
| `MentorshipRelationDao.NoDoubleAcceptance` | tests/mentorship_relation/test_dao_accept_request.py:90-98 | after a successful accept, a second accept on the same relation never succeeds and changes nothing; an existing user gets the not-pending message |
| `MentorshipRelationDao.AcceptKeepsWellFormed` | tests/mentorship_relation/test_dao_accept_request.py:27-38 | accepting keeps every relation well formed: two distinct participants, one of them the requester |
| `MentorshipRelationDao.Store.Accept` | tests/mentorship_relation/test_dao_accept_request.py:43-119 | returns the message of the ordered check chain with its status; the relations become the result of `AcceptEffect`; the users are not written |

## Left out

- `Store.Accept`: it does not set `current_mentorship_role` on the acceptor or on the other participant. The tests never assert such a link, and line 75 reads that field after the call.
- The texts of the message constants: `app/messages.py` is not part of this model. Each constant is a constructor of `Message`.
- Database sessions and commits: the store is two in-memory maps, and an update is one atomic assignment. Commit failures and the transient-failure outcome are not modelled.
- Concurrent accepts: calls are taken one at a time. `NoDoubleAcceptance` covers two accepts in sequence.
- Timestamps, notes and the task list: timestamps are integers and notes a string, both carried untouched. The task list created with the relation is not modelled.
- The relation's creation (`MentorshipRelationModel(...)`) and the base test fixture that creates the two users: `relation_base_setup` is not part of this model. `AcceptRequestTests.SetUp` builds an equivalent store directly.
- Reject, cancel and complete: they are not part of this model.
- Listing and searching users over HTTP (`tests/users/test_api_list_users.py`): transport, authentication and serialisation, outside this core.
