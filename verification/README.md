# chipin in Dafny

chipin is a Django app for splitting shared costs inside groups. Users belong to groups
(one admin, a member set, an invited set), ask to join groups, post comments, and create
events whose `total_spend` is divided among the members. Each user's profile carries a
spending cap (`max_spend`), and an event is Active when every group member can cover
their share.

This project models two parts of the app:

- **The event arithmetic** (`money.dfy`, `models.dfy`). Money is whole cents. The share is
  the exact quotient `total / divisor`, rounded half-even to a cent, as `Decimal.quantize`
  does under Python's default context. The divisor is the number of event members. If that
  is 0 it is the number of group members, and if that is also 0 it is 1.
  `check_status` is modelled twice: as a set quantifier, and as the source's early-return
  loop. The two are proved equal.
- **The request handlers** (`views.dfy`). Each handler is a pure function from the database
  (`Views.State`) and the request's parameters to a new database and an `Outcome`. The
  outcome stands for the flash message and response. The lemmas in `properties.dfy` relate
  handlers to each other: idempotence, a join/leave round trip, agreement of
  `update_event_status` with `check_status`, and a database invariant (`Views.Wf`). The
  invariant holds over any sequence of requests, and it implies that no event is ever
  Completed. The scenarios of `chipin/tests.py` are stated as concrete lemmas.

Inputs that come from outside the handlers are parameters:
- the logged-in user (`actor`);
- the HTTP method (`isPost`);
- query and form fields, as `Option` when they may be absent;
- the verdict of a form's `is_valid()` (`formValid`);
- the order in which the database returns a group's members (`order`).

A user's profile is a key in `State.caps`, holding `max_spend` in cents. A user with no key
has no profile.

## Behaviour of the code that the model keeps

- `invite_users`, `accept_invite` and `join_event` check no relationship between the caller and the group. Anyone logged in may invite, accept on behalf of any invited user, or join an event of a group they do not belong to.
- Rounding is half-even, not half-up: 0.005 rounds to 0.00 and 0.015 to 0.02.
- The divisor counts the event's members, but `check_status` checks every group member's cap.
- `update_event_status` reads profiles without a fallback, so it can raise where `check_status` would count a missing profile as 0.
- Approving a join request writes first and then reads the requester's profile. Without a profile the request fails after the member was added.
- Editing a comment through `group_detail` sets its author to the editor and its group to the page's group.
- `group_detail` tests the edit id with Python's truth test, so an edit id of 0 posts a new comment.
- The loop in `update_event_status` stops at the first member whose cap is below the share. A later member without a profile is never reached, so whether the request raises depends on the query order.

## Model

| member | source | states |
|---|---|---|
| Money.RoundHalfEven | chipin/models.py:96 | the result is within half a unit of n/d, and an exact tie goes to the even neighbour |
| Money.RoundHalfEvenExact | chipin/models.py:96 | when d divides n, the rounded value times d is n |
| Money.RoundHalfEvenNonNegative | chipin/models.py:96 | a non-negative n gives a non-negative result |
| Money.RoundHalfEvenUnique | chipin/models.py:96 | any integer that is a half-even rounding of n/d equals RoundHalfEven(n, d), so the rounding is uniquely determined |
| Models.NewEvent | chipin/models.py:73-78 | a newly created event has no members, the default status Pending, and the given group and total |
| Models.Divisor | chipin/models.py:93-95 | the divisor is the event member count if nonzero, else the group member count if nonzero, else 1; it is always at least 1 |
| Models.Share | chipin/models.py:88-96 | the share is the half-even rounding of total/divisor, and 0 when total_spend is missing or not a number |
| Models.ShareExact | chipin/models.py:96 | when the divisor divides the total, the share is the exact quotient |
| Models.ShareNonNegative | chipin/models.py:96 | a non-negative total gives a non-negative share |
| Models.CalculateShare | chipin/models.py:84-96 | the share of an event over its members, falling back to its group's members; with no members anywhere it is the whole total |
| Models.CapOf | chipin/models.py:102-105 | a user's cap is their profile's max_spend, or 0 without a profile |
| Models.CheckStatus | chipin/models.py:98-109 | only the status changes; it becomes Active exactly when every group member's cap covers the share, otherwise Pending, never Completed; with no group members it is Active |
| Models.CheckStatusLoop | chipin/models.py:100-109 | the early-return loop over the members in query order returns Active exactly when every member can afford the share, otherwise Pending |
| Models.ScanCaps | chipin/views.py:315-319 | the first member in query order that the loop cannot pass decides: AllCovered exactly when every member has a profile whose cap covers the share, MissingProfile exactly when that first member has no profile, Shortfall exactly when it has a profile with a cap below the share |
| Models.ScanPastCovered | chipin/views.py:316-319 | once the first member is covered, the loop's verdict on the whole order is its verdict on the remaining members |
| Views.Cascade | chipin/models.py:24-76 | deleting a group removes it and exactly the invites, join requests, comments and events that belong to it; every other row keeps its value, and users, profiles and key counters do not change |
| Views.DeleteGroup | chipin/views.py:41-48 | the group admin's request gives exactly the cascade deletion of the group; a missing group is NotFound, and anyone else is Denied and changes nothing |
| Views.InviteUsers | chipin/views.py:51-62 | a POST naming an existing, not yet invited user adds exactly that user to invited_users and changes nothing else; already invited, GET, or unknown user changes nothing |
| Views.AcceptInvite | chipin/views.py:91-106 | an invited non-member moves from invited_users to members and nothing else changes; a member (AlreadyDone), an uninvited user (Denied), an unknown user or group (NotFound) or a missing user_id (Invalid) changes nothing |
| Views.RequestToJoin | chipin/views.py:134-145 | a request is created, under a new key, exactly when the caller is not a member and has no request for the group; otherwise nothing changes |
| Views.VoteOnJoinRequest | chipin/views.py:149-165 | a non-member's vote is Denied and changes nothing; a member's vote deletes the request, and 'approve' also adds exactly the requester to members; approval raises after the writes exactly when the requester has no profile, and every other member's vote is Done |
| Views.DeleteJoinRequest | chipin/views.py:169-176 | the request is deleted exactly when the caller is its requester or the admin of its group; anyone else is Denied and nothing changes |
| Views.LeaveGroup | chipin/views.py:180-193 | a non-member or the admin is Denied and changes nothing; any other member is removed from members and nothing else changes |
| Views.DeleteComment | chipin/views.py:197-201 | the comment is deleted exactly when the caller is its author or the admin of its group; anyone else is Denied and nothing changes |
| Views.GroupDetail | chipin/views.py:204-229 | an edit id that is absent or 0 means a new comment, as Python's truth test does; a comment is saved exactly when a member POSTs a valid form and (when editing) is the author or this group's admin; the saved comment has the caller as user and this group as group, and no other comment changes |
| Views.EventShareInfo | chipin/views.py:235-251 | the caller is shown eligible exactly when they have a profile whose cap covers the event's share; joined exactly when they are an event member |
| Views.CreateEvent | chipin/views.py:263-280 | only the admin's POST with a name, a date and a total creates an event, under a new key, with that name, date and total, Pending and with no members; anyone else is Denied; the admin's GET renders the form; a missing field raises and nothing is stored |
| Views.JoinEvent | chipin/views.py:283-301 | no profile raises; a cap below the share before joining is refused; with a cap that covers the share the caller is added (Done) exactly when not yet a participant, and otherwise gets AlreadyDone and nothing changes; on Done only that event changes, its status recomputed by check_status |
| Views.UpdateEventStatus | chipin/views.py:305-329 | a non-admin is Denied and changes nothing; for the admin the request raises exactly when the first member in query order that the loop cannot pass has no profile, and otherwise succeeds; only the event's status changes, never to Completed, and it is Active exactly when every group member has a profile whose cap covers the share |
| Views.LeaveEvent | chipin/views.py:332-345 | a non-participant is Denied and changes nothing; a participant is removed and only that event changes, its status recomputed by check_status |
| Views.DeleteEvent | chipin/views.py:348-358 | only the admin deletes the event and nothing else changes; anyone else is Denied and changes nothing |
| Properties.ShareExamples | chipin/models.py:84-96 | 10.00 over 3 members is 3.33, 100.00 over 0 event and 4 group members is 25.00, half cents round to even, a missing total gives 0.00 |
| Properties.ShareIsTheRounding | chipin/models.py:96 | any half-even rounding of total/divisor is the share |
| Properties.ShareWithinHalfCent | chipin/models.py:96 | twice the absolute difference between share times divisor and the total is at most the divisor |
| Properties.UpdateStatusAgreesWithCheckStatus | chipin/views.py:313-326 | when every group member has a profile, update_event_status by the admin succeeds and sets the same event as check_status |
| Properties.UpdateStatusCrashesOnMissingProfile | chipin/views.py:316-317 | when some member has no profile and every member before it in query order has a cap covering the share, update_event_status raises and changes nothing |
| Properties.UpdateStatusShortfallBeforeMissingProfile | chipin/views.py:316-319 | when the first member the loop cannot pass has a profile with a cap below the share, the loop breaks: the event becomes Pending and nothing raises, whatever members come later |
| Properties.ShortfallStateFacts | chipin/models.py:84-96 | in a three-member group with a 3.00 event and no event members, the share is 1.00 |
| Properties.ShortfallFirstIsPending | chipin/views.py:316-326 | with a member below the share queried before a member without a profile, update_event_status succeeds and the event is Pending |
| Properties.MissingProfileFirstCrashes | chipin/views.py:316-317 | with the member without a profile queried first, the same request raises and changes nothing |
| Properties.JoinEventAcceptsIffEligible | chipin/views.py:241-244 | for a caller with a profile, join_event does not refuse on the cap exactly when the group page shows them eligible |
| Properties.LeaveUndoesJoin | chipin/views.py:283-345 | for a caller who has not joined and whose cap covers the share, joining and then leaving both succeed and restore the database, except that the event's status is what check_status gives for its original members |
| Properties.InviteUsersIdempotent | chipin/views.py:57-61 | inviting the same user a second time leaves the database unchanged |
| Properties.InviteUsersIgnoresCaller | chipin/views.py:51-62 | invite_users gives the same result whoever calls it: there is no authorization check |
| Properties.AcceptInviteIgnoresTokenAndCaller | chipin/views.py:93-105 | accept_invite gives the same result for any token and any caller |
| Properties.AcceptInviteIdempotent | chipin/views.py:96-101 | accepting the same link a second time leaves the database unchanged |
| Properties.RequestToJoinRepeatIsNoOp | chipin/views.py:139-144 | a second request by the same user for the same group changes nothing |
| Properties.AtMostOneRequest | chipin/views.py:136-144 | in a well-formed database each (user, group) has at most one join request |
| Properties.RequestToJoinLeavesOne | chipin/views.py:139-144 | after a successful request there is exactly one request for that user and group |
| Properties.PostCommentCount | chipin/views.py:214-228 | a member's new comment increases the group's comment count by exactly one, with the poster as author; a non-member's POST leaves the group's comments unchanged |
| Properties.LeaveThenRejoinByInvite | chipin/views.py:51-193 | a member who leaves and is then invited and accepts the invite restores the database exactly |
| Properties.DeleteCommentCount | chipin/views.py:197-201 | deleting a comment lowers its group's comment count by exactly one |
| Properties.DeleteJoinRequestAllowsNewRequest | chipin/views.py:134-176 | after a join request is deleted, its requester, if not a member, may request to join the group again |
| Properties.DeletedEventIsGone | chipin/views.py:283-358 | after an event is deleted, joining, leaving or deleting it again is NotFound and changes nothing |
| Properties.EditIdZeroPostsNewComment | chipin/views.py:207-228 | a member's POST with edit id 0 saves a new comment instead of editing one |
| Properties.CommentsInAddFresh | chipin/views.py:214-228 | adding a comment under a fresh key adds exactly that key to its group's comments |
| Properties.DispatchPreservesWf | chipin/views.py:40-358 | every handler keeps keys below their counters, every row's group present, at most one request per (user, group), and no event Completed |
| Properties.RunPreservesWf | chipin/views.py:40-358 | any sequence of requests keeps the database well formed |
| Properties.NeverCompleted | chipin/models.py:63-109 | after any sequence of requests from a well-formed database, no event is Completed |
| Properties.MemberPostsComment | chipin/tests.py:14-21 | in the test setup, alice's post creates exactly one comment in the group, with content "hello" |
| Properties.NonMemberCannotComment | chipin/tests.py:23-28 | in the test setup, bob's post is denied and the group has no comments |
| Properties.JoinRequestFlow | chipin/tests.py:30-42 | in the test setup, bob's request creates exactly one request; alice's approval adds bob to the members and removes the request |

## Left out

- Rendering, templates, flash message texts, redirects and URL reversing. A handler's response is reduced to an `Outcome`.
- `@login_required` and `_auto_login_as_invitee`. Authentication and sessions are outside the model, and the logged-in user is the `actor` parameter.
- `web3forms_invite`, `invite_sent` and `Invite.accept_url`. They only read rows and settings and render pages for an outbound email form. No modelled handler creates or changes an `Invite`. Invites appear only as rows removed by the group cascade.
- `home` and the read-only part of `group_detail` other than the event table (comment ordering, the form shown). They change no state.
- `create_group`: `GroupCreationForm` (chipin/forms.py) is not part of this model. So the model has no group-creation transition and no group key counter.
- Form validation. `CommentForm.is_valid()` is the boolean `formValid`. The form is assumed to carry only `content`.
- Parsing of ids in URLs and forms. Ids arrive already parsed as numbers. A non-numeric `user_id` would make `get_object_or_404` raise ValueError (chipin/views.py:56, 95), and the model does not have that crash.
- Parsing of `create_event`'s POST fields. Name, date and total arrive already parsed, with None for a value the ORM would refuse at save.
- Models.Share: no 28-digit Decimal division precision and no quantize overflow, because the quotient is rounded exactly. The `max_digits=10` bound on `total_spend` is not enforced.
- Models.CapOf: `max_spend` is assumed to be an amount with two decimal places (cents). The profile model is not part of this model.
- UUID token generation, timestamps, `default_invite_expiry` and `__str__` methods. No logic shown reads them.
- The ORM itself. `get_object_or_404` is the NotFound outcome, and primary keys of new rows come from per-table counters in the state.
- Races between concurrent requests. Each handler is one atomic step here, although the source runs without transactions.
- Views.UpdateEventStatus: the order in which the database returns a group's members is a parameter (`order`). The source does not fix that order, and it decides whether a member without a profile is reached before the loop breaks.
