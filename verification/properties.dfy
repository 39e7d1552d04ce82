/**
  Properties relating several handler calls, the database invariant every handler keeps,
  and the scenarios of chipin's own tests.
*/
module Properties {
  import opened Wrappers
  import opened Money
  import opened Models
  import opened Views

  // ---------------------------------------------------------------------------
  // Share arithmetic

  /** 10.00 over 3 joined members is 3.33; 100.00 over no joined members and 4 group
      members is 25.00; half a cent rounds to the even cent. */
  lemma ShareExamples()
    ensures Share(Some(1000), 3, 0) == 333
    ensures Share(Some(10000), 0, 4) == 2500
    ensures Share(Some(1), 2, 7) == 0
    ensures Share(Some(3), 2, 7) == 2
    ensures Share(None, 5, 5) == 0
    ensures Share(Some(-1000), 3, 0) == -333
  {
  }

  /** The share is the one half-even rounding of the exact quotient. */
  lemma ShareIsTheRounding(total: Option<int>, eventMembers: nat, groupMembers: nat, r: int)
    requires IsHalfEvenRounding(total.GetOr(0), Divisor(eventMembers, groupMembers), r)
    ensures Share(total, eventMembers, groupMembers) == r
  {
    RoundHalfEvenUnique(total.GetOr(0), Divisor(eventMembers, groupMembers), r);
  }

  /** Within half a cent of the exact quotient, in the form |share·d − total|·2 ≤ d. */
  lemma ShareWithinHalfCent(total: int, eventMembers: nat, groupMembers: nat)
    ensures var d := Divisor(eventMembers, groupMembers);
      var dev := Share(Some(total), eventMembers, groupMembers) * d - total;
      2 * (if dev < 0 then -dev else dev) <= d
  {
  }

  // ---------------------------------------------------------------------------
  // Status

  /** With every group member holding a profile, update_event_status sets the status that
      check_status would. */
  lemma UpdateStatusAgreesWithCheckStatus(s: State, actor: UserId, gid: GroupId, eid: EventId,
                                          order: seq<UserId>)
    requires EventOf(s, gid, eid) && IsAdmin(s, actor, gid)
    requires Enumerates(order, s.groups[gid].members)
    requires forall m :: m in s.groups[gid].members ==> m in s.caps
    ensures UpdateEventStatus(s, actor, gid, eid, order).outcome == Done
    ensures UpdateEventStatus(s, actor, gid, eid, order).state.events[eid]
         == CheckStatus(s.events[eid], s.groups[gid], s.caps)
  {
  }

  /** update_event_status raises when the first member the scan cannot pass has no profile
      (while check_status would count it as 0 and set Pending). */
  lemma UpdateStatusCrashesOnMissingProfile(s: State, actor: UserId, gid: GroupId, eid: EventId,
                                            order: seq<UserId>, i: nat)
    requires EventOf(s, gid, eid) && IsAdmin(s, actor, gid)
    requires Enumerates(order, s.groups[gid].members)
    requires i < |order| && order[i] !in s.caps
    requires CoveredBefore(order, s.caps, CalculateShare(s.events[eid], s.groups[gid]), i)
    ensures UpdateEventStatus(s, actor, gid, eid, order) == Step(s, Crash)
  {
  }

  /** A shortfall met before any member without a profile ends the scan: the event becomes
      Pending and nothing raises, whatever members come later. */
  lemma UpdateStatusShortfallBeforeMissingProfile(s: State, actor: UserId, gid: GroupId,
                                                  eid: EventId, order: seq<UserId>, i: nat)
    requires EventOf(s, gid, eid) && IsAdmin(s, actor, gid)
    requires Enumerates(order, s.groups[gid].members)
    requires i < |order| && order[i] in s.caps
    requires s.caps[order[i]] < CalculateShare(s.events[eid], s.groups[gid])
    requires CoveredBefore(order, s.caps, CalculateShare(s.events[eid], s.groups[gid]), i)
    ensures UpdateEventStatus(s, actor, gid, eid, order)
         == Step(s.(events := s.events[eid := s.events[eid].(status := Pending)]), Done)
  {
  }

  /** The eligibility shown on the group page decides whether join_event refuses the caller
      for a low cap. */
  lemma JoinEventAcceptsIffEligible(s: State, actor: UserId, gid: GroupId, eid: EventId)
    requires EventOf(s, gid, eid) && actor in s.caps
    ensures JoinEvent(s, actor, gid, eid).outcome != Denied <==> EventShareInfo(s, actor, eid).eligible
  {
  }

  /** Leaving an event just joined restores its member set; the status becomes what
      check_status gives for the original members. */
  lemma LeaveUndoesJoin(s: State, actor: UserId, gid: GroupId, eid: EventId)
    requires EventOf(s, gid, eid) && actor in s.caps && actor !in s.events[eid].members
    requires s.caps[actor] >= CalculateShare(s.events[eid], s.groups[gid])
    ensures var t := LeaveEvent(JoinEvent(s, actor, gid, eid).state, actor, gid, eid);
      && t.outcome == Done
      && t.state == s.(events := s.events[eid := CheckStatus(s.events[eid], s.groups[gid], s.caps)])
  {
    var e := s.events[eid];
    assert e.members + {actor} - {actor} == e.members;
  }

  // ---------------------------------------------------------------------------
  // Idempotence and independence

  /** Inviting the same user again changes nothing. */
  lemma InviteUsersIdempotent(s: State, a1: UserId, a2: UserId, gid: GroupId, u: UserId)
    ensures var s1 := InviteUsers(s, a1, gid, true, Some(u)).state;
      InviteUsers(s1, a2, gid, true, Some(u)).state == s1
  {
  }

  /** invite_users does not depend on who calls it. */
  lemma InviteUsersIgnoresCaller(s: State, a1: UserId, a2: UserId, gid: GroupId, isPost: bool,
                                 userId: Option<UserId>)
    ensures InviteUsers(s, a1, gid, isPost, userId) == InviteUsers(s, a2, gid, isPost, userId)
  {
  }

  /** accept_invite depends neither on the token nor on who calls it. */
  lemma AcceptInviteIgnoresTokenAndCaller(s: State, a1: UserId, a2: UserId, gid: GroupId,
                                          userId: Option<UserId>, t1: Option<nat>, t2: Option<nat>)
    ensures AcceptInvite(s, a1, gid, userId, t1) == AcceptInvite(s, a2, gid, userId, t2)
  {
  }

  /** A second accept of the same link is a no-op. */
  lemma AcceptInviteIdempotent(s: State, actor: UserId, gid: GroupId, userId: Option<UserId>,
                               token: Option<nat>)
    ensures var s1 := AcceptInvite(s, actor, gid, userId, token).state;
      AcceptInvite(s1, actor, gid, userId, token).state == s1
  {
  }

  /** The keys of `m` holding `v`. */
  function KeysWith(m: map<RequestId, JoinRequest>, v: JoinRequest): set<RequestId> {
    set k | k in m && m[k] == v
  }

  /** The join requests by `u` for group `gid`. */
  function RequestsFor(s: State, u: UserId, gid: GroupId): set<RequestId> {
    KeysWith(s.requests, JoinRequest(u, gid))
  }

  /** Storing a value the map did not hold makes its key the only one holding it. */
  lemma KeysWithFreshValue(m: map<RequestId, JoinRequest>, n: RequestId, v: JoinRequest)
    requires v !in m.Values
    ensures KeysWith(m[n := v], v) == {n}
  {
  }

  /** Asking again leaves the database as it was after the first request. */
  lemma RequestToJoinRepeatIsNoOp(s: State, actor: UserId, gid: GroupId)
    ensures var s1 := RequestToJoin(s, actor, gid).state;
      RequestToJoin(s1, actor, gid) == Step(s1, if gid in s.groups then AlreadyDone else NotFound)
  {
  }

  /** In a well-formed database there is at most one request per (user, group). */
  lemma {:induction false} AtMostOneRequest(s: State, u: UserId, gid: GroupId)
    requires Wf(s)
    ensures |RequestsFor(s, u, gid)| <= 1
  {
    var ks := RequestsFor(s, u, gid);
    if ks != {} {
      var k :| k in ks;
      assert ks == {k};
    }
  }

  /** A successful request leaves exactly one request for that (user, group). */
  lemma RequestToJoinLeavesOne(s: State, actor: UserId, gid: GroupId)
    requires RequestToJoin(s, actor, gid).outcome == Done
    ensures |RequestsFor(RequestToJoin(s, actor, gid).state, actor, gid)| == 1
  {
    KeysWithFreshValue(s.requests, s.nextRequest, JoinRequest(actor, gid));
  }

  // ---------------------------------------------------------------------------
  // Comments

  /** The comments of group `gid`. */
  function CommentsOf(s: State, gid: GroupId): set<CommentId> {
    CommentsIn(s.comments, gid)
  }

  /** The keys of the comments in `m` that belong to group `gid`. */
  function CommentsIn(m: map<CommentId, Comment>, gid: GroupId): set<CommentId> {
    set k | k in m && m[k].group == gid
  }

  /** Storing a comment of `gid` under a fresh key adds exactly that key to the group's. */
  lemma CommentsInAddFresh(m: map<CommentId, Comment>, n: CommentId, c: Comment)
    requires n !in m
    ensures CommentsIn(m[n := c], c.group) == CommentsIn(m, c.group) + {n}
    ensures n !in CommentsIn(m, c.group)
  {
  }

  /** A member's new comment adds exactly one comment to the group, by that member; anyone
      else's POST leaves the group's comments alone. */
  lemma PostCommentCount(s: State, actor: UserId, gid: GroupId, content: string)
    requires Wf(s) && gid in s.groups
    ensures var t := GroupDetail(s, actor, gid, None, true, true, content).state;
      && (actor in s.groups[gid].members ==>
            && |CommentsOf(t, gid)| == |CommentsOf(s, gid)| + 1
            && t.comments[s.nextComment] == Comment(actor, gid, content))
      && (actor !in s.groups[gid].members ==> CommentsOf(t, gid) == CommentsOf(s, gid))
  {
    var r := GroupDetail(s, actor, gid, None, true, true, content);
    var n := s.nextComment;
    var c := Comment(actor, gid, content);
    if actor in s.groups[gid].members {
      assert r.state.comments == s.comments[n := c];
      assert n !in s.comments;
      CommentsInAddFresh(s.comments, n, c);
    } else {
      assert r.state == s;
    }
  }

  // ---------------------------------------------------------------------------
  // The invariant over every handler

  datatype Request =
    | DeleteGroupReq(actor: UserId, gid: GroupId)
    | InviteUsersReq(actor: UserId, gid: GroupId, isPost: bool, userId: Option<UserId>)
    | AcceptInviteReq(actor: UserId, gid: GroupId, userId: Option<UserId>, token: Option<nat>)
    | RequestToJoinReq(actor: UserId, gid: GroupId)
    | VoteReq(actor: UserId, gid: GroupId, rid: RequestId, vote: string)
    | DeleteJoinRequestReq(actor: UserId, rid: RequestId)
    | LeaveGroupReq(actor: UserId, gid: GroupId)
    | DeleteCommentReq(actor: UserId, cid: CommentId)
    | GroupDetailReq(actor: UserId, gid: GroupId, editId: Option<CommentId>, isPost: bool,
                     formValid: bool, content: string)
    | CreateEventReq(actor: UserId, gid: GroupId, isPost: bool, name: Option<string>,
                     date: Option<int>, total: Option<int>)
    | JoinEventReq(actor: UserId, gid: GroupId, eid: EventId)
    | UpdateStatusReq(actor: UserId, gid: GroupId, eid: EventId, order: seq<UserId>)
    | LeaveEventReq(actor: UserId, gid: GroupId, eid: EventId)
    | DeleteEventReq(actor: UserId, gid: GroupId, eid: EventId)

  /** The member order carried by an update-status request is the one the query returns. */
  ghost predicate Admissible(s: State, q: Request) {
    q.UpdateStatusReq? && q.gid in s.groups ==> Enumerates(q.order, s.groups[q.gid].members)
  }

  function Dispatch(s: State, q: Request): Step
    requires Admissible(s, q)
  {
    match q
    case DeleteGroupReq(a, g) => DeleteGroup(s, a, g)
    case InviteUsersReq(a, g, p, u) => InviteUsers(s, a, g, p, u)
    case AcceptInviteReq(a, g, u, t) => AcceptInvite(s, a, g, u, t)
    case RequestToJoinReq(a, g) => RequestToJoin(s, a, g)
    case VoteReq(a, g, rid, v) => VoteOnJoinRequest(s, a, g, rid, v)
    case DeleteJoinRequestReq(a, rid) => DeleteJoinRequest(s, a, rid)
    case LeaveGroupReq(a, g) => LeaveGroup(s, a, g)
    case DeleteCommentReq(a, cid) => DeleteComment(s, a, cid)
    case GroupDetailReq(a, g, e, p, v, c) => GroupDetail(s, a, g, e, p, v, c)
    case CreateEventReq(a, g, p, n, d, t) => CreateEvent(s, a, g, p, n, d, t)
    case JoinEventReq(a, g, e) => JoinEvent(s, a, g, e)
    case UpdateStatusReq(a, g, e, o) => UpdateEventStatus(s, a, g, e, o)
    case LeaveEventReq(a, g, e) => LeaveEvent(s, a, g, e)
    case DeleteEventReq(a, g, e) => DeleteEvent(s, a, g, e)
  }

  /** Every handler keeps the database well formed; in particular none makes an event
      Completed. */
  lemma DispatchPreservesWf(s: State, q: Request)
    requires Wf(s) && Admissible(s, q)
    ensures Wf(Dispatch(s, q).state)
  {
  }

  ghost predicate AdmissibleRun(s: State, qs: seq<Request>)
    decreases |qs|
  {
    |qs| == 0 || (Admissible(s, qs[0]) && AdmissibleRun(Dispatch(s, qs[0]).state, qs[1..]))
  }

  /** The database after serving `qs` one after another. */
  ghost function Run(s: State, qs: seq<Request>): State
    requires AdmissibleRun(s, qs)
    decreases |qs|
  {
    if |qs| == 0 then s else Run(Dispatch(s, qs[0]).state, qs[1..])
  }

  /** Any sequence of requests keeps the database well formed. */
  lemma {:induction false} RunPreservesWf(s: State, qs: seq<Request>)
    requires Wf(s) && AdmissibleRun(s, qs)
    ensures Wf(Run(s, qs))
    decreases |qs|
  {
    if |qs| > 0 {
      DispatchPreservesWf(s, qs[0]);
      RunPreservesWf(Dispatch(s, qs[0]).state, qs[1..]);
    }
  }

  /** No sequence of requests ever makes an event Completed. */
  lemma {:induction false} NeverCompleted(s: State, qs: seq<Request>, eid: EventId)
    requires Wf(s) && AdmissibleRun(s, qs)
    requires eid in Run(s, qs).events
    ensures Run(s, qs).events[eid].status != Completed
  {
    RunPreservesWf(s, qs);
  }

  // ---------------------------------------------------------------------------
  // Leaving and deleting

  /** A member who leaves and is then invited and accepts is back where they started. */
  lemma LeaveThenRejoinByInvite(s: State, actor: UserId, inviter: UserId, gid: GroupId,
                                token: Option<nat>)
    requires LeaveGroup(s, actor, gid).outcome == Done
    requires actor in s.users && actor !in s.groups[gid].invited
    ensures var s1 := LeaveGroup(s, actor, gid).state;
      var r2 := InviteUsers(s1, inviter, gid, true, Some(actor));
      var r3 := AcceptInvite(r2.state, actor, gid, Some(actor), token);
      r2.outcome == Done && r3.outcome == Done && r3.state == s
  {
    var g := s.groups[gid];
    assert g.members - {actor} + {actor} == g.members;
    assert g.invited + {actor} - {actor} == g.invited;
    assert s.groups[gid := g] == s.groups;
  }

  /** Deleting a comment takes exactly one comment off its group. */
  lemma DeleteCommentCount(s: State, actor: UserId, cid: CommentId)
    requires DeleteComment(s, actor, cid).outcome == Done
    ensures var gid := s.comments[cid].group;
      |CommentsOf(DeleteComment(s, actor, cid).state, gid)| == |CommentsOf(s, gid)| - 1
  {
    var gid := s.comments[cid].group;
    var t := DeleteComment(s, actor, cid).state;
    assert CommentsOf(s, gid) == CommentsOf(t, gid) + {cid};
  }

  /** Once a join request is deleted, the requester may ask again. */
  lemma DeleteJoinRequestAllowsNewRequest(s: State, actor: UserId, rid: RequestId)
    requires Wf(s)
    requires DeleteJoinRequest(s, actor, rid).outcome == Done
    requires s.requests[rid].user !in s.groups[s.requests[rid].group].members
    ensures var jr := s.requests[rid];
      RequestToJoin(DeleteJoinRequest(s, actor, rid).state, jr.user, jr.group).outcome == Done
  {
  }

  /** After an event is deleted it can no longer be joined, left or updated. */
  lemma DeletedEventIsGone(s: State, actor: UserId, gid: GroupId, eid: EventId, other: UserId)
    requires DeleteEvent(s, actor, gid, eid).outcome == Done
    ensures var t := DeleteEvent(s, actor, gid, eid).state;
      && JoinEvent(t, other, gid, eid) == Step(t, NotFound)
      && LeaveEvent(t, other, gid, eid) == Step(t, NotFound)
      && DeleteEvent(t, other, gid, eid) == Step(t, NotFound)
  {
  }

  /** A group of three sharing a 3.00 event: the admin (1) can cover the 1.00 share, member
      2 cannot, and member 3 has no profile. The query order decides whether the handler
      raises. */
  function ShortfallState(): State {
    State({1, 2, 3}, map[1 := 500, 2 := 0], map[1 := Group("trip", 1, {1, 2, 3}, {})],
          map[], map[], map[], map[1 := Event("dinner", 0, Some(300), 1, {}, Pending)], 1, 1, 2)
  }

  /** The share of the trip's event is 1.00, and both orders below enumerate the group. */
  lemma ShortfallStateFacts()
    ensures CalculateShare(ShortfallState().events[1], ShortfallState().groups[1]) == 100
    ensures Enumerates([2, 3, 1], ShortfallState().groups[1].members)
    ensures Enumerates([3, 2, 1], ShortfallState().groups[1].members)
  {
    assert RoundHalfEven(300, 3) == 100;
    var o := [2, 3, 1];
    assert o[0] == 2 && o[1] == 3 && o[2] == 1;
    var p := [3, 2, 1];
    assert p[0] == 3 && p[1] == 2 && p[2] == 1;
  }

  /** Member 2's shortfall is reached first: the loop breaks and the event stays Pending. */
  lemma ShortfallFirstIsPending()
    ensures var r := UpdateEventStatus(ShortfallState(), 1, 1, 1, [2, 3, 1]);
      r.outcome == Done && r.state.events[1].status == Pending
  {
    ShortfallStateFacts();
    UpdateStatusShortfallBeforeMissingProfile(ShortfallState(), 1, 1, 1, [2, 3, 1], 0);
  }

  /** Member 3 is reached first: reading its missing profile raises. */
  lemma MissingProfileFirstCrashes()
    ensures UpdateEventStatus(ShortfallState(), 1, 1, 1, [3, 2, 1]) == Step(ShortfallState(), Crash)
  {
    ShortfallStateFacts();
    UpdateStatusCrashesOnMissingProfile(ShortfallState(), 1, 1, 1, [3, 2, 1], 0);
  }

  // ---------------------------------------------------------------------------
  // Editing comments

  /** An edit parameter of 0 is false in Python, so a member's POST saves a new comment. */
  lemma EditIdZeroPostsNewComment()
    ensures var r := GroupDetail(TestState(), 1, 1, Some(0), true, true, "x");
      && r.outcome == Done
      && r.state.comments == map[1 := Comment(1, 1, "x")]
  {
  }

  // ---------------------------------------------------------------------------
  // The scenarios of chipin's tests: alice (1) administers group 1 and is its only member;
  // bob (2) is not a member. The fixture creates no profiles, yet the approval in
  // JoinRequestFlow can only succeed if bob has one: the handler reads the requester's profile
  // after its writes. Profiles are created outside the code modelled here (the profile model
  // is not part of this model), so both users are given one, with a cap of 0.

  function TestState(): State {
    State({1, 2}, map[1 := 0, 2 := 0], map[1 := Group("test", 1, {1}, {})],
          map[], map[], map[], map[], 1, 1, 1)
  }

  lemma MemberPostsComment()
    ensures var r := GroupDetail(TestState(), 1, 1, None, true, true, "hello");
      && r.outcome == Done
      && |CommentsOf(r.state, 1)| == 1
      && r.state.comments[1].content == "hello"
  {
    var r := GroupDetail(TestState(), 1, 1, None, true, true, "hello");
    assert CommentsOf(r.state, 1) == {1};
  }

  lemma NonMemberCannotComment()
    ensures var r := GroupDetail(TestState(), 2, 1, None, true, true, "hi");
      r.outcome == Denied && CommentsOf(r.state, 1) == {}
  {
  }

  lemma JoinRequestFlow()
    ensures var r1 := RequestToJoin(TestState(), 2, 1);
      && r1.outcome == Done
      && |RequestsFor(r1.state, 2, 1)| == 1
      && var r2 := VoteOnJoinRequest(r1.state, 1, 1, 1, "approve");
      && r2.outcome == Done
      && 2 in r2.state.groups[1].members
      && RequestsFor(r2.state, 2, 1) == {}
  {
    var r1 := RequestToJoin(TestState(), 2, 1);
    assert RequestsFor(r1.state, 2, 1) == {1};
  }
}
