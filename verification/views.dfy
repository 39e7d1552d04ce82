/**
  The request handlers of chipin, each as a pure transition over the whole database.

  A handler takes the current state, the logged-in user (`actor`) and the request's
  parameters, and returns the new state together with an outcome standing for the
  message and response the handler produces. Lookups that would answer 404 give NotFound
  and change nothing; an exception the handler does not catch gives Crash. Nothing runs in
  a transaction, so writes made before such an exception stay.
*/
module Views {
  import opened Wrappers
  import opened Models

  /** The database. Primary keys of new rows come from per-table counters. */
  datatype State = State(
    users: set<UserId>,
    caps: map<UserId, int>,
    groups: map<GroupId, Group>,
    invites: map<InviteId, Invite>,
    requests: map<RequestId, JoinRequest>,
    comments: map<CommentId, Comment>,
    events: map<EventId, Event>,
    nextRequest: nat,
    nextComment: nat,
    nextEvent: nat)

  datatype Outcome =
    | Done         // the action took effect (success or warning message)
    | AlreadyDone  // informational message, nothing to do
    | Denied       // the caller lacks the required relationship, or cannot afford the event
    | NotFound     // a looked-up row does not exist (404)
    | Invalid      // an invalid link or an invalid form
    | Rendered     // a GET that only renders a page
    | Crash        // an uncaught exception (500)

  datatype Step = Step(state: State, outcome: Outcome)

  /** Keys below their counters, every row's group present, at most one join request per
      (user, group), and no event Completed. */
  ghost predicate Wf(s: State) {
    && (forall k :: k in s.requests ==> k < s.nextRequest && s.requests[k].group in s.groups)
    && (forall k :: k in s.comments ==> k < s.nextComment && s.comments[k].group in s.groups)
    && (forall k :: k in s.events ==>
          k < s.nextEvent && s.events[k].group in s.groups && s.events[k].status != Completed)
    && (forall k :: k in s.invites ==> s.invites[k].group in s.groups)
    && (forall k1, k2 :: k1 in s.requests && k2 in s.requests && s.requests[k1] == s.requests[k2]
          ==> k1 == k2)
  }

  predicate IsAdmin(s: State, u: UserId, gid: GroupId) {
    gid in s.groups && s.groups[gid].admin == u
  }

  predicate IsMember(s: State, u: UserId, gid: GroupId) {
    gid in s.groups && u in s.groups[gid].members
  }

  predicate HasRequest(s: State, u: UserId, gid: GroupId) {
    JoinRequest(u, gid) in s.requests.Values
  }

  /** Only group `gid` may differ between s and t, and it keeps its key. */
  ghost predicate OnlyGroupChanged(s: State, t: State, gid: GroupId) {
    && t == s.(groups := t.groups)
    && t.groups.Keys == s.groups.Keys
    && (forall g :: g in s.groups && g != gid ==> t.groups[g] == s.groups[g])
  }

  /** Only event `eid` may differ between s and t, and it keeps its key. */
  ghost predicate OnlyEventChanged(s: State, t: State, eid: EventId) {
    && t == s.(events := t.events)
    && t.events.Keys == s.events.Keys
    && (forall e :: e in s.events && e != eid ==> t.events[e] == s.events[e])
  }

  /** Replaces event `eid` by `e`, which stays in the same group and is not Completed. */
  function WithEvent(s: State, eid: EventId, e: Event): (t: State)
    requires eid in s.events
    ensures OnlyEventChanged(s, t, eid) && t.events[eid] == e
    ensures Wf(s) && e.group == s.events[eid].group && e.status != Completed ==> Wf(t)
  {
    s.(events := s.events[eid := e])
  }

  // ---------------------------------------------------------------------------
  // Groups

  /** Removes a group and, by cascade, its invites, join requests, comments and events. */
  function Cascade(s: State, gid: GroupId): (t: State)
    ensures t.groups.Keys == s.groups.Keys - {gid}
    ensures forall k :: k in t.requests <==> k in s.requests && s.requests[k].group != gid
    ensures forall k :: k in t.comments <==> k in s.comments && s.comments[k].group != gid
    ensures forall k :: k in t.events <==> k in s.events && s.events[k].group != gid
    ensures forall k :: k in t.invites <==> k in s.invites && s.invites[k].group != gid
    ensures t == s.(groups := t.groups, invites := t.invites, requests := t.requests,
                    comments := t.comments, events := t.events)
    ensures forall k :: k in t.groups ==> t.groups[k] == s.groups[k]
    ensures forall k :: k in t.requests ==> t.requests[k] == s.requests[k]
    ensures forall k :: k in t.comments ==> t.comments[k] == s.comments[k]
    ensures forall k :: k in t.events ==> t.events[k] == s.events[k]
    ensures forall k :: k in t.invites ==> t.invites[k] == s.invites[k]
  {
    s.(groups := s.groups - {gid},
       invites := map k | k in s.invites && s.invites[k].group != gid :: s.invites[k],
       requests := map k | k in s.requests && s.requests[k].group != gid :: s.requests[k],
       comments := map k | k in s.comments && s.comments[k].group != gid :: s.comments[k],
       events := map k | k in s.events && s.events[k].group != gid :: s.events[k])
  }

  /** delete_group: only the admin may delete. */
  function DeleteGroup(s: State, actor: UserId, gid: GroupId): (r: Step)
    ensures Wf(s) ==> Wf(r.state)
    ensures gid !in s.groups ==> r == Step(s, NotFound)
    ensures !IsAdmin(s, actor, gid) ==> r.state == s
    ensures r.outcome == Done <==> IsAdmin(s, actor, gid)
    ensures gid in s.groups && !IsAdmin(s, actor, gid) ==> r.outcome == Denied
    ensures r.outcome == Done ==> r.state == Cascade(s, gid)
    ensures r.outcome == Done ==> gid !in r.state.groups && r.state.users == s.users
    ensures r.outcome == Done ==> forall g :: g in s.groups && g != gid ==>
      g in r.state.groups && r.state.groups[g] == s.groups[g]
  {
    if gid !in s.groups then Step(s, NotFound)
    else if actor != s.groups[gid].admin then Step(s, Denied)
    else Step(Cascade(s, gid), Done)
  }

  /** invite_users: a POST adds the chosen user to the invited set. No relationship of the
      caller to the group is checked; the user must exist. */
  function InviteUsers(s: State, actor: UserId, gid: GroupId, isPost: bool,
                       userId: Option<UserId>): (r: Step)
    ensures Wf(s) ==> Wf(r.state)
    ensures r.outcome != Done ==> r.state == s
    ensures r.outcome == Done <==>
      isPost && gid in s.groups && userId.Some? && userId.value in s.users
      && userId.value !in s.groups[gid].invited
    ensures r.outcome == Done ==>
      && OnlyGroupChanged(s, r.state, gid)
      && r.state.groups[gid] == s.groups[gid].(invited := r.state.groups[gid].invited)
      && r.state.groups[gid].invited == s.groups[gid].invited + {userId.value}
  {
    if gid !in s.groups then Step(s, NotFound)
    else if !isPost then Step(s, Rendered)
    else if userId.None? || userId.value !in s.users then Step(s, NotFound)
    else
      var g := s.groups[gid];
      var u := userId.value;
      if u in g.invited then Step(s, AlreadyDone)
      else Step(s.(groups := s.groups[gid := g.(invited := g.invited + {u})]), Done)
  }

  /** accept_invite: keyed on the `user_id` query parameter alone. The token in the link is
      never read, nor is the caller. */
  function AcceptInvite(s: State, actor: UserId, gid: GroupId, userId: Option<UserId>,
                        token: Option<nat>): (r: Step)
    ensures Wf(s) ==> Wf(r.state)
    ensures r.outcome != Done ==> r.state == s
    ensures r.outcome == Done <==>
      gid in s.groups && userId.Some? && userId.value in s.users
      && userId.value !in s.groups[gid].members && userId.value in s.groups[gid].invited
    ensures r.outcome == Done ==>
      && OnlyGroupChanged(s, r.state, gid)
      && r.state.groups[gid].admin == s.groups[gid].admin
      && r.state.groups[gid].name == s.groups[gid].name
      && r.state.groups[gid].members == s.groups[gid].members + {userId.value}
      && r.state.groups[gid].invited == s.groups[gid].invited - {userId.value}
    ensures gid !in s.groups ==> r == Step(s, NotFound)
    ensures gid in s.groups && userId.None? ==> r.outcome == Invalid
    ensures gid in s.groups && userId.Some? ==>
      && (userId.value !in s.users ==> r.outcome == NotFound)
      && (userId.value in s.users && userId.value in s.groups[gid].members ==> r.outcome == AlreadyDone)
      && (userId.value in s.users ==>
            userId.value !in s.groups[gid].members && userId.value !in s.groups[gid].invited ==>
            r.outcome == Denied)
  {
    if gid !in s.groups then Step(s, NotFound)
    else if userId.None? then Step(s, Invalid)
    else if userId.value !in s.users then Step(s, NotFound)
    else
      var g := s.groups[gid];
      var u := userId.value;
      if u in g.members then Step(s, AlreadyDone)
      else if u in g.invited then
        Step(s.(groups := s.groups[gid := g.(members := g.members + {u}, invited := g.invited - {u})]), Done)
      else Step(s, Denied)
  }

  /** request_to_join_group: a non-member without a pending request gets one. */
  function RequestToJoin(s: State, actor: UserId, gid: GroupId): (r: Step)
    ensures Wf(s) ==> Wf(r.state)
    ensures r.outcome != Done ==> r.state == s
    ensures r.outcome == Done <==>
      gid in s.groups && actor !in s.groups[gid].members && !HasRequest(s, actor, gid)
    ensures r.outcome == Done ==>
      && r.state == s.(requests := r.state.requests, nextRequest := r.state.nextRequest)
      && s.nextRequest in r.state.requests
      && r.state.requests[s.nextRequest] == JoinRequest(actor, gid)
      && r.state.requests.Keys == s.requests.Keys + {s.nextRequest}
      && (forall k :: k in s.requests && k != s.nextRequest ==> r.state.requests[k] == s.requests[k])
      && r.state.nextRequest == s.nextRequest + 1
  {
    if gid !in s.groups then Step(s, NotFound)
    else if actor in s.groups[gid].members then Step(s, AlreadyDone)
    else if HasRequest(s, actor, gid) then Step(s, AlreadyDone)
    else
      Step(s.(requests := s.requests[s.nextRequest := JoinRequest(actor, gid)],
              nextRequest := s.nextRequest + 1), Done)
  }

  /** vote_on_join_request: any member decides alone. "approve" adds the requester and deletes
      the request; any other vote only deletes it. The approval message then reads the
      requester's profile, which raises (after the writes) when there is none. */
  function VoteOnJoinRequest(s: State, actor: UserId, gid: GroupId, rid: RequestId,
                             vote: string): (r: Step)
    ensures Wf(s) ==> Wf(r.state)
    ensures !(gid in s.groups && rid in s.requests && s.requests[rid].group == gid) ==>
      r == Step(s, NotFound)
    ensures !IsMember(s, actor, gid) ==> r.state == s
    ensures (gid in s.groups && rid in s.requests && s.requests[rid].group == gid) ==>
      !IsMember(s, actor, gid) ==> r.outcome == Denied
    ensures IsMember(s, actor, gid) && rid in s.requests && s.requests[rid].group == gid ==>
      && r.state == s.(groups := r.state.groups, requests := r.state.requests)
      && r.state.requests == s.requests - {rid}
      && OnlyGroupChanged(s.(requests := r.state.requests), r.state, gid)
      && r.state.groups[gid] == s.groups[gid].(members := r.state.groups[gid].members)
      && (vote == "approve" ==>
            r.state.groups[gid].members == s.groups[gid].members + {s.requests[rid].user})
      && (vote != "approve" ==> r.state.groups == s.groups && r.outcome == Done)
      && (r.outcome == Crash <==> vote == "approve" && s.requests[rid].user !in s.caps)
      && (r.outcome != Crash ==> r.outcome == Done)
  {
    if gid !in s.groups then Step(s, NotFound)
    else if rid !in s.requests || s.requests[rid].group != gid then Step(s, NotFound)
    else
      var g := s.groups[gid];
      var jr := s.requests[rid];
      if actor !in g.members then Step(s, Denied)
      else if vote == "approve" then
        Step(s.(groups := s.groups[gid := g.(members := g.members + {jr.user})],
                requests := s.requests - {rid}),
             if jr.user in s.caps then Done else Crash)
      else Step(s.(requests := s.requests - {rid}), Done)
  }

  /** delete_join_request: the requester or the admin of the request's group may delete it. */
  function DeleteJoinRequest(s: State, actor: UserId, rid: RequestId): (r: Step)
    ensures Wf(s) ==> Wf(r.state)
    ensures rid !in s.requests ==> r == Step(s, NotFound)
    ensures r.outcome == Done <==>
      rid in s.requests && (s.requests[rid].user == actor || IsAdmin(s, actor, s.requests[rid].group))
    ensures r.outcome == Done ==> r.state == s.(requests := s.requests - {rid})
    ensures r.outcome != Done ==> r.state == s
    ensures rid in s.requests && r.outcome != Done ==> r.outcome == Denied
  {
    if rid !in s.requests then Step(s, NotFound)
    else
      var jr := s.requests[rid];
      if jr.user == actor || IsAdmin(s, actor, jr.group) then
        Step(s.(requests := s.requests - {rid}), Done)
      else Step(s, Denied)
  }

  /** leave_group: a member other than the admin leaves. */
  function LeaveGroup(s: State, actor: UserId, gid: GroupId): (r: Step)
    ensures Wf(s) ==> Wf(r.state)
    ensures r.outcome != Done ==> r.state == s
    ensures r.outcome == Done <==> IsMember(s, actor, gid) && !IsAdmin(s, actor, gid)
    ensures gid in s.groups && r.outcome != Done ==> r.outcome == Denied
    ensures r.outcome == Done ==>
      && OnlyGroupChanged(s, r.state, gid)
      && r.state.groups[gid] == s.groups[gid].(members := r.state.groups[gid].members)
      && r.state.groups[gid].members == s.groups[gid].members - {actor}
  {
    if gid !in s.groups then Step(s, NotFound)
    else
      var g := s.groups[gid];
      if actor !in g.members then Step(s, Denied)
      else if actor == g.admin then Step(s, Denied)
      else Step(s.(groups := s.groups[gid := g.(members := g.members - {actor})]), Done)
  }

  // ---------------------------------------------------------------------------
  // Comments

  /** delete_comment: the author or the admin of the comment's group may delete it. */
  function DeleteComment(s: State, actor: UserId, cid: CommentId): (r: Step)
    ensures Wf(s) ==> Wf(r.state)
    ensures cid !in s.comments ==> r == Step(s, NotFound)
    ensures r.outcome == Done <==>
      cid in s.comments && (s.comments[cid].user == actor || IsAdmin(s, actor, s.comments[cid].group))
    ensures r.outcome == Done ==> r.state == s.(comments := s.comments - {cid})
    ensures r.outcome != Done ==> r.state == s
    ensures cid in s.comments && r.outcome != Done ==> r.outcome == Denied
  {
    if cid !in s.comments then Step(s, NotFound)
    else
      var c := s.comments[cid];
      if c.user == actor || IsAdmin(s, actor, c.group) then
        Step(s.(comments := s.comments - {cid}), Done)
      else Step(s, Denied)
  }

  /** Whether group_detail edits a comment: the parameter must be present and, read as a
      Python truth value, non-zero. */
  predicate Editing(editId: Option<CommentId>) {
    editId.Some? && editId.value != 0
  }

  /** The state-changing part of group_detail. `editId` is the comment being edited, looked up
      by key alone; only its author or the admin of THIS group may open it. A POST by a
      member with a valid form saves one comment with the caller as its author and this
      group as its group: a new one, or the edited one overwritten. */
  function GroupDetail(s: State, actor: UserId, gid: GroupId, editId: Option<CommentId>,
                       isPost: bool, formValid: bool, content: string): (r: Step)
    ensures Wf(s) ==> Wf(r.state)
    ensures r.outcome != Done ==> r.state == s
    ensures r.outcome == Done <==>
      && gid in s.groups && isPost && formValid && actor in s.groups[gid].members
      && (Editing(editId) ==>
            editId.value in s.comments
            && (s.comments[editId.value].user == actor || actor == s.groups[gid].admin))
    ensures r.outcome == Done ==>
      var cid := if Editing(editId) then editId.value else s.nextComment;
      && r.state == s.(comments := r.state.comments, nextComment := r.state.nextComment)
      && cid in r.state.comments && r.state.comments[cid] == Comment(actor, gid, content)
      && (forall k :: k in s.comments && k != cid ==>
            k in r.state.comments && r.state.comments[k] == s.comments[k])
      && r.state.comments.Keys == s.comments.Keys + {cid}
      && (!Editing(editId) ==> r.state.nextComment == s.nextComment + 1)
      && (Editing(editId) ==> r.state.nextComment == s.nextComment)
  {
    if gid !in s.groups then Step(s, NotFound)
    else if Editing(editId) && editId.value !in s.comments then Step(s, NotFound)
    else
      var g := s.groups[gid];
      if Editing(editId) && s.comments[editId.value].user != actor && actor != g.admin then
        Step(s, Denied)
      else if !isPost then Step(s, Rendered)
      else if actor !in g.members then Step(s, Denied)
      else if !formValid then Step(s, Invalid)
      else if Editing(editId) then
        Step(s.(comments := s.comments[editId.value := Comment(actor, gid, content)]), Done)
      else
        Step(s.(comments := s.comments[s.nextComment := Comment(actor, gid, content)],
                nextComment := s.nextComment + 1), Done)
  }

  /** One row of the page's event table for the caller. */
  datatype ShareInfo = ShareInfo(share: int, eligible: bool, status: Status, joined: bool)

  /** The event table of group_detail: the share, whether the caller's profile cap covers it
      (false without a profile), the status and whether the caller has joined. */
  function EventShareInfo(s: State, actor: UserId, eid: EventId): (r: ShareInfo)
    requires eid in s.events && s.events[eid].group in s.groups
    ensures r.eligible <==>
      actor in s.caps && s.caps[actor] >= CalculateShare(s.events[eid], s.groups[s.events[eid].group])
    ensures r.joined <==> actor in s.events[eid].members
    ensures r.status == s.events[eid].status
    ensures r.share == CalculateShare(s.events[eid], s.groups[s.events[eid].group])
  {
    var e := s.events[eid];
    var share := CalculateShare(e, s.groups[e.group]);
    ShareInfo(share, actor in s.caps && s.caps[actor] >= share, e.status, actor in e.members)
  }

  // ---------------------------------------------------------------------------
  // Events

  predicate EventOf(s: State, gid: GroupId, eid: EventId) {
    gid in s.groups && eid in s.events && s.events[eid].group == gid
  }

  /** create_event: the admin's POST stores a new Pending event with no members. A missing
      name, an unparsable date or a total that is not a decimal makes the save raise. */
  function CreateEvent(s: State, actor: UserId, gid: GroupId, isPost: bool,
                       name: Option<string>, date: Option<int>, total: Option<int>): (r: Step)
    ensures Wf(s) ==> Wf(r.state)
    ensures r.outcome != Done ==> r.state == s
    ensures !IsAdmin(s, actor, gid) ==> r.state == s
    ensures gid !in s.groups ==> r == Step(s, NotFound)
    ensures gid in s.groups && !IsAdmin(s, actor, gid) ==> r.outcome == Denied
    ensures IsAdmin(s, actor, gid) && !isPost ==> r == Step(s, Rendered)
    ensures IsAdmin(s, actor, gid) && isPost && (name.None? || date.None? || total.None?) ==>
      r == Step(s, Crash)
    ensures r.outcome == Done <==>
      IsAdmin(s, actor, gid) && isPost && name.Some? && date.Some? && total.Some?
    ensures r.outcome == Done ==>
      && r.state == s.(events := r.state.events, nextEvent := r.state.nextEvent)
      && r.state.events.Keys == s.events.Keys + {s.nextEvent}
      && (forall k :: k in s.events && k != s.nextEvent ==> r.state.events[k] == s.events[k])
      && r.state.events[s.nextEvent].name == name.value
      && r.state.events[s.nextEvent].date == date.value
      && r.state.events[s.nextEvent].status == Pending
      && r.state.events[s.nextEvent].members == {}
      && r.state.events[s.nextEvent].group == gid
      && r.state.events[s.nextEvent].total == total
      && r.state.nextEvent == s.nextEvent + 1
  {
    if gid !in s.groups then Step(s, NotFound)
    else if actor != s.groups[gid].admin then Step(s, Denied)
    else if !isPost then Step(s, Rendered)
    else if name.None? || date.None? || total.None? then Step(s, Crash)
    else
      Step(s.(events := s.events[s.nextEvent := NewEvent(name.value, date.value, total.value, gid)],
              nextEvent := s.nextEvent + 1), Done)
  }

  /** join_event: the caller's own profile is read without a fallback; a cap below the share
      as it stands before joining is refused, a second join does nothing, otherwise the caller
      joins and the status is recomputed by check_status. Group membership is not checked. */
  function JoinEvent(s: State, actor: UserId, gid: GroupId, eid: EventId): (r: Step)
    ensures Wf(s) ==> Wf(r.state)
    ensures !EventOf(s, gid, eid) ==> r == Step(s, NotFound)
    ensures r.outcome != Done ==> r.state == s
    ensures EventOf(s, gid, eid) ==>
      && (actor !in s.caps <==> r.outcome == Crash)
      && (r.outcome == Denied <==>
            actor in s.caps && s.caps[actor] < CalculateShare(s.events[eid], s.groups[gid]))
      && (actor in s.caps && s.caps[actor] >= CalculateShare(s.events[eid], s.groups[gid]) ==>
            (r.outcome == Done <==> actor !in s.events[eid].members)
            && (r.outcome != Done ==> r.outcome == AlreadyDone))
    ensures r.outcome == Done ==>
      && OnlyEventChanged(s, r.state, eid)
      && actor !in s.events[eid].members
      && r.state.events[eid]
           == CheckStatus(s.events[eid].(members := s.events[eid].members + {actor}), s.groups[gid], s.caps)
  {
    if !EventOf(s, gid, eid) then Step(s, NotFound)
    else
      var g := s.groups[gid];
      var e := s.events[eid];
      if actor !in s.caps then Step(s, Crash)
      else if s.caps[actor] < CalculateShare(e, g) then Step(s, Denied)
      else if actor in e.members then Step(s, AlreadyDone)
      else
        Step(WithEvent(s, eid, CheckStatus(e.(members := e.members + {actor}), g, s.caps)), Done)
  }

  /** update_event_status: the admin recomputes the status by walking the group's members in
      `order`, the order the query returns them. Unlike check_status, a member without a
      profile reached before any shortfall makes the handler raise. */
  function UpdateEventStatus(s: State, actor: UserId, gid: GroupId, eid: EventId,
                             order: seq<UserId>): (r: Step)
    requires gid in s.groups ==> Enumerates(order, s.groups[gid].members)
    ensures Wf(s) ==> Wf(r.state)
    ensures !EventOf(s, gid, eid) ==> r == Step(s, NotFound)
    ensures !IsAdmin(s, actor, gid) ==> r.state == s
    ensures EventOf(s, gid, eid) && !IsAdmin(s, actor, gid) ==> r.outcome == Denied
    ensures EventOf(s, gid, eid) && IsAdmin(s, actor, gid) ==>
      && (r.outcome == Crash <==>
            MissingFirst(order, s.caps, CalculateShare(s.events[eid], s.groups[gid])))
      && (r.outcome != Crash ==> r.outcome == Done)
    ensures r.outcome != Done ==> r.state == s
    ensures r.outcome == Done ==>
      && OnlyEventChanged(s, r.state, eid)
      && r.state.events[eid] == s.events[eid].(status := r.state.events[eid].status)
      && r.state.events[eid].status != Completed
      && (r.state.events[eid].status == Active <==>
            forall m :: m in s.groups[gid].members ==>
              m in s.caps && s.caps[m] >= CalculateShare(s.events[eid], s.groups[gid]))
  {
    if !EventOf(s, gid, eid) then Step(s, NotFound)
    else
      var g := s.groups[gid];
      var e := s.events[eid];
      if actor != g.admin then Step(s, Denied)
      else
        match ScanCaps(order, s.caps, CalculateShare(e, g))
        case MissingProfile => Step(s, Crash)
        case AllCovered => Step(WithEvent(s, eid, e.(status := Active)), Done)
        case Shortfall => Step(WithEvent(s, eid, e.(status := Pending)), Done)
  }

  /** leave_event: a participant leaves and the status is recomputed by check_status. */
  function LeaveEvent(s: State, actor: UserId, gid: GroupId, eid: EventId): (r: Step)
    ensures Wf(s) ==> Wf(r.state)
    ensures !EventOf(s, gid, eid) ==> r == Step(s, NotFound)
    ensures r.outcome != Done ==> r.state == s
    ensures r.outcome == Done <==> EventOf(s, gid, eid) && actor in s.events[eid].members
    ensures EventOf(s, gid, eid) && actor !in s.events[eid].members ==> r.outcome == Denied
    ensures r.outcome == Done ==>
      && OnlyEventChanged(s, r.state, eid)
      && r.state.events[eid].members == s.events[eid].members - {actor}
      && r.state.events[eid]
           == CheckStatus(s.events[eid].(members := s.events[eid].members - {actor}), s.groups[gid], s.caps)
  {
    if !EventOf(s, gid, eid) then Step(s, NotFound)
    else
      var e := s.events[eid];
      if actor !in e.members then Step(s, Denied)
      else
        Step(WithEvent(s, eid, CheckStatus(e.(members := e.members - {actor}), s.groups[gid], s.caps)), Done)
  }

  /** delete_event: only the admin may delete an event of the group. */
  function DeleteEvent(s: State, actor: UserId, gid: GroupId, eid: EventId): (r: Step)
    ensures Wf(s) ==> Wf(r.state)
    ensures !EventOf(s, gid, eid) ==> r == Step(s, NotFound)
    ensures !IsAdmin(s, actor, gid) ==> r.state == s
    ensures r.outcome == Done <==> EventOf(s, gid, eid) && IsAdmin(s, actor, gid)
    ensures EventOf(s, gid, eid) && !IsAdmin(s, actor, gid) ==> r.outcome == Denied
    ensures r.outcome == Done ==> r.state == s.(events := s.events - {eid})
    ensures r.outcome != Done ==> r.state == s
  {
    if !EventOf(s, gid, eid) then Step(s, NotFound)
    else if actor != s.groups[gid].admin then Step(s, Denied)
    else Step(s.(events := s.events - {eid}), Done)
  }
}
