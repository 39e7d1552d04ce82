/**
  The records of the chipin app and the two domain rules on events: the per-member
  share of an event's cost and the event's affordability status.

  Users, groups and the other rows are referred to by their primary keys. Money is in
  whole cents (`total_spend` is a decimal with two places). A user's spending cap is the
  `max_spend` of their profile; `caps` maps each user that has a profile to that cap, and
  a user without a key in `caps` has no profile.
*/
module Models {
  import opened Wrappers
  import opened Money

  type UserId = nat
  type GroupId = nat
  type InviteId = nat
  type RequestId = nat
  type CommentId = nat
  type EventId = nat

  /** A group: one admin, a member set and the set of users invited but not yet joined.
      The admin is not required to be a member. */
  datatype Group = Group(name: string, admin: UserId, members: set<UserId>, invited: set<UserId>)

  /** An invitation record. Its token is generated and stored but nothing compares it. */
  datatype Invite = Invite(token: nat, accepted: bool, group: GroupId,
                           invitedBy: UserId, invitedUser: UserId)

  /** A pending request by `user` to join `group`. */
  datatype JoinRequest = JoinRequest(user: UserId, group: GroupId)

  /** A comment posted by `user` on `group`. */
  datatype Comment = Comment(user: UserId, group: GroupId, content: string)

  datatype Status = Pending | Active | Completed

  /** A new event's status. */
  const DefaultStatus: Status := Pending

  /** An event of `group`. `total` is the `total_spend` attribute in cents; None stands for a
      value that is missing or not a decimal number. `date` is an opaque timestamp. */
  datatype Event = Event(name: string, date: int, total: Option<int>, group: GroupId,
                         members: set<UserId>, status: Status)

  /** The event created by the event form: nobody has joined yet and it is Pending. */
  function NewEvent(name: string, date: int, total: int, group: GroupId): (e: Event)
    ensures e.members == {} && e.status == Pending
    ensures e.group == group && e.total == Some(total)
  {
    Event(name, date, Some(total), group, {}, DefaultStatus)
  }

  // ---------------------------------------------------------------------------
  // Share

  /** How many ways the total is split: the event's members, or failing that the group's
      members, or failing that one. */
  function Divisor(eventMembers: nat, groupMembers: nat): (d: nat)
    ensures d >= 1
    ensures eventMembers > 0 ==> d == eventMembers
    ensures eventMembers == 0 && groupMembers > 0 ==> d == groupMembers
    ensures eventMembers == 0 && groupMembers == 0 ==> d == 1
  {
    if eventMembers != 0 then eventMembers
    else if groupMembers != 0 then groupMembers
    else 1
  }

  /** The per-member share in cents: the total (0 when it is not a number) divided by the
      divisor, rounded half-even to a whole cent. */
  function Share(total: Option<int>, eventMembers: nat, groupMembers: nat): (r: int)
    ensures IsHalfEvenRounding(total.GetOr(0), Divisor(eventMembers, groupMembers), r)
    ensures total.None? ==> r == 0
  {
    RoundHalfEven(total.GetOr(0), Divisor(eventMembers, groupMembers))
  }

  /** When the divisor divides the total, the share is the exact quotient. */
  lemma ShareExact(total: int, eventMembers: nat, groupMembers: nat)
    requires total % Divisor(eventMembers, groupMembers) == 0
    ensures Share(Some(total), eventMembers, groupMembers) * Divisor(eventMembers, groupMembers) == total
  {
    RoundHalfEvenExact(total, Divisor(eventMembers, groupMembers));
  }

  /** A non-negative total gives a non-negative share. */
  lemma ShareNonNegative(total: int, eventMembers: nat, groupMembers: nat)
    requires total >= 0
    ensures Share(Some(total), eventMembers, groupMembers) >= 0
  {
    RoundHalfEvenNonNegative(total, Divisor(eventMembers, groupMembers));
  }

  /** Event.calculate_share: the share over the event's joined members, falling back to the
      members of the event's group. */
  function CalculateShare(e: Event, g: Group): (r: int)
    ensures IsHalfEvenRounding(e.total.GetOr(0), Divisor(|e.members|, |g.members|), r)
    ensures |e.members| == 0 && |g.members| == 0 ==> r == e.total.GetOr(0)
    ensures e.total.None? ==> r == 0
  {
    Share(e.total, |e.members|, |g.members|)
  }

  // ---------------------------------------------------------------------------
  // Status

  /** A user's cap, with a missing profile counted as 0. */
  function CapOf(caps: map<UserId, int>, u: UserId): (c: int)
    ensures u !in caps ==> c == 0
    ensures u in caps ==> c == caps[u]
  {
    if u in caps then caps[u] else 0
  }

  predicate AllCanAfford(members: set<UserId>, caps: map<UserId, int>, share: int) {
    forall m :: m in members ==> CapOf(caps, m) >= share
  }

  /** Event.check_status: Active when every member of the group (not of the event) can cover
      the share, Pending otherwise. Only the status changes. */
  function CheckStatus(e: Event, g: Group, caps: map<UserId, int>): (r: Event)
    ensures r == e.(status := r.status)
    ensures r.status != Completed
    ensures r.status == Active <==> AllCanAfford(g.members, caps, CalculateShare(e, g))
    ensures g.members == {} ==> r.status == Active
  {
    e.(status := if AllCanAfford(g.members, caps, CalculateShare(e, g)) then Active else Pending)
  }

  /** `order` lists each element of `members` exactly once: the rows a query returns. */
  ghost predicate Enumerates(order: seq<UserId>, members: set<UserId>) {
    && (forall i :: 0 <= i < |order| ==> order[i] in members)
    && (forall m :: m in members ==> m in order)
    && (forall i, j :: 0 <= i < j < |order| ==> order[i] != order[j])
  }

  /** The loop of check_status as written: walk the members in query order, with a missing
      profile read as a cap of 0, and stop at the first one who cannot afford the share. */
  method CheckStatusLoop(order: seq<UserId>, members: set<UserId>, caps: map<UserId, int>,
                         share: int) returns (st: Status)
    requires Enumerates(order, members)
    ensures st == Active <==> AllCanAfford(members, caps, share)
    ensures st == Active || st == Pending
  {
    var i := 0;
    while i < |order|
      invariant 0 <= i <= |order|
      invariant forall j :: 0 <= j < i ==> CapOf(caps, order[j]) >= share
    {
      if CapOf(caps, order[i]) < share {
        return Pending;
      }
      i := i + 1;
    }
    return Active;
  }

  /** What the loop of update_event_status meets first, walking members in query order:
      a member without a profile (the attribute lookup raises), one whose cap is below the
      share (the loop breaks), or neither. */
  datatype Scan = AllCovered | Shortfall | MissingProfile

  /** Every member before position i has a profile whose cap covers the share. */
  predicate CoveredBefore(order: seq<UserId>, caps: map<UserId, int>, share: int, i: nat)
    requires i <= |order|
  {
    forall j :: 0 <= j < i ==> order[j] in caps && caps[order[j]] >= share
  }

  /** The first member the scan cannot pass has no profile. */
  predicate MissingFirst(order: seq<UserId>, caps: map<UserId, int>, share: int) {
    exists i :: 0 <= i < |order| && order[i] !in caps && CoveredBefore(order, caps, share, i)
  }

  /** The first member the scan cannot pass has a profile with a cap below the share. */
  predicate ShortFirst(order: seq<UserId>, caps: map<UserId, int>, share: int) {
    exists i :: 0 <= i < |order| && order[i] in caps && caps[order[i]] < share
      && CoveredBefore(order, caps, share, i)
  }

  function ScanCaps(order: seq<UserId>, caps: map<UserId, int>, share: int): (r: Scan)
    ensures r == AllCovered <==> CoveredBefore(order, caps, share, |order|)
    ensures r == MissingProfile <==> MissingFirst(order, caps, share)
    ensures r == Shortfall <==> ShortFirst(order, caps, share)
    decreases |order|
  {
    if |order| == 0 then AllCovered
    else if order[0] !in caps then MissingProfile
    else if caps[order[0]] < share then Shortfall
    else
      ScanPastCovered(order, caps, share);
      ScanCaps(order[1..], caps, share)
  }

  /** Once the first member is covered, the scan's verdict on `order` is its verdict on the
      rest: position i of order[1..] is position i + 1 of order. */
  lemma ScanPastCovered(order: seq<UserId>, caps: map<UserId, int>, share: int)
    requires |order| > 0 && order[0] in caps && caps[order[0]] >= share
    ensures CoveredBefore(order, caps, share, |order|) <==> CoveredBefore(order[1..], caps, share, |order| - 1)
    ensures MissingFirst(order, caps, share) <==> MissingFirst(order[1..], caps, share)
    ensures ShortFirst(order, caps, share) <==> ShortFirst(order[1..], caps, share)
  {
    assert forall i :: 0 <= i < |order| - 1 ==>
      (CoveredBefore(order[1..], caps, share, i) <==> CoveredBefore(order, caps, share, i + 1));
    assert MissingFirst(order, caps, share) ==> MissingFirst(order[1..], caps, share) by {
      if MissingFirst(order, caps, share) {
        var i :| 0 <= i < |order| && order[i] !in caps && CoveredBefore(order, caps, share, i);
        assert i > 0;
        assert order[1..][i - 1] == order[i];
      }
    }
    assert ShortFirst(order, caps, share) ==> ShortFirst(order[1..], caps, share) by {
      if ShortFirst(order, caps, share) {
        var i :| 0 <= i < |order| && order[i] in caps && caps[order[i]] < share
          && CoveredBefore(order, caps, share, i);
        assert i > 0;
        assert order[1..][i - 1] == order[i];
      }
    }
    assert MissingFirst(order[1..], caps, share) ==> MissingFirst(order, caps, share) by {
      if MissingFirst(order[1..], caps, share) {
        var i :| 0 <= i < |order| - 1 && order[1..][i] !in caps
          && CoveredBefore(order[1..], caps, share, i);
        assert order[i + 1] !in caps && CoveredBefore(order, caps, share, i + 1);
      }
    }
    assert ShortFirst(order[1..], caps, share) ==> ShortFirst(order, caps, share) by {
      if ShortFirst(order[1..], caps, share) {
        var i :| 0 <= i < |order| - 1 && order[1..][i] in caps && caps[order[1..][i]] < share
          && CoveredBefore(order[1..], caps, share, i);
        assert order[i + 1] in caps && caps[order[i + 1]] < share
          && CoveredBefore(order, caps, share, i + 1);
      }
    }
  }

}
