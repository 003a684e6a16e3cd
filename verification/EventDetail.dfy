/**
 * The event detail page: who may open it and what it says about the viewer,
 * proved to agree with what the join command would do at the same instant.
 */
module EventDetail {
  import opened Common
  import opened EventRules
  import opened EventOutcomes

  datatype AccessFacts = AccessFacts(status: Status, visibility: Visibility, hasManager: bool, isManager: bool,
                                     isParticipant: bool, hasLivePendingRequest: bool)

  predicate Joinable(s: Status) { s == Active || s == Full }

  predicate CanViewEventDetail(f: AccessFacts)
  {
    if f.isManager then true
    else if f.status == Draft then false
    else if f.isParticipant || f.hasLivePendingRequest then true
    else f.visibility == Public && Joinable(f.status) && f.hasManager
  }

  /** The part of the newest join request that the page reads. */
  datatype LatestRequest = LatestRequest(id: nat, status: RequestStatus, guests: nat, expiresAt: int)

  datatype ViewerFacts = ViewerFacts(isManager: bool, activeGuests: Option<nat>, latest: Option<LatestRequest>,
                                     status: Status, startsAt: int, depositMinor: nat, minTrust: nat,
                                     hasManager: bool, trust: Option<int>, chatRoom: Option<nat>, now: int)

  datatype RequestSummary = RequestSummary(id: nat, status: RequestStatus, requestedSeats: nat)

  datatype Action = NoAction | Manage | OpenChat | AwaitingApproval | RequestToJoin

  datatype Relationship = Relationship(isManager: bool, isParticipant: bool, partySize: Option<nat>,
                                       joinRequest: Option<RequestSummary>, canRequestToJoin: bool,
                                       unavailable: Option<EventError>, action: Action, chatRoom: Option<nat>)

  function EffectiveJoinRequestStatus(status: RequestStatus, expiresAt: int, now: int): RequestStatus
  {
    if status == Pending && expiresAt <= now then Expired else status
  }

  function JoinUnavailableReason(f: ViewerFacts): Option<EventError>
  {
    if f.trust.None? || f.trust.value < f.minTrust then Some(TrustRequired)
    else if !f.hasManager || !Joinable(f.status) || f.startsAt <= f.now then Some(NotJoinable)
    else if f.depositMinor > 0 then Some(PaidJoinNotAvailable)
    else None
  }

  function Summary(f: ViewerFacts): Option<RequestSummary>
  {
    match f.latest
    case None => None
    case Some(r) => Some(RequestSummary(r.id, EffectiveJoinRequestStatus(r.status, r.expiresAt, f.now), 1 + r.guests))
  }

  function DeriveViewerRelationship(f: ViewerFacts): Relationship
  {
    var isParticipant := !f.isManager && f.activeGuests.Some?;
    var joinRequest := Summary(f);
    var awaiting := !f.isManager && !isParticipant && joinRequest.Some? && joinRequest.value.status == Pending;
    var reason := if f.isManager || isParticipant || awaiting then None else JoinUnavailableReason(f);
    var canRequest := !f.isManager && !isParticipant && !awaiting && reason.None?;
    var action := if f.isManager then Manage
                  else if isParticipant then OpenChat
                  else if awaiting then AwaitingApproval
                  else if canRequest then RequestToJoin
                  else NoAction;
    Relationship(f.isManager, isParticipant, if isParticipant then Some(1 + f.activeGuests.value) else None,
                 joinRequest, canRequest, reason, action,
                 if f.isManager || isParticipant then f.chatRoom else None)
  }

  /** `ORDER BY requested_at DESC LIMIT 1`: requests are in order of insertion. */
  function Latest(rs: seq<Request>, user: UserId): (r: Option<LatestRequest>)
    ensures r.None? ==> forall i :: 0 <= i < |rs| ==> rs[i].user != user
    ensures r.Some? ==>
      var id := r.value.id;
      && id < |rs| && rs[id].user == user && (forall i :: id < i < |rs| ==> rs[i].user != user)
      && r.value == LatestRequest(id, rs[id].status, rs[id].guests, rs[id].expiresAt)
  {
    var n := |rs| - 1;
    if |rs| == 0 then None
    else if rs[n].user == user then Some(LatestRequest(n, rs[n].status, rs[n].guests, rs[n].expiresAt))
    else Latest(rs[..n], user)
  }

  /** The guest count of the active row, if the user has one. */
  function ActiveGuests(ps: seq<Participant>, user: UserId): (r: Option<nat>)
    ensures r.Some? <==> IsMember(ps, user)
    ensures r.Some? ==> exists k :: 0 <= k < |ps| && ps[k].user == user && ps[k].departure.None? && ps[k].guests == r.value
  {
    var n := |ps| - 1;
    if |ps| == 0 then None
    else if ps[n].user == user && ps[n].departure.None? then Some(ps[n].guests)
    else
      assert IsMember(ps, user) <==> IsMember(ps[..n], user);
      ActiveGuests(ps[..n], user)
  }

  function Access(e: Event, viewer: UserId, now: int): AccessFacts
  {
    var latest := Latest(e.requests, viewer);
    AccessFacts(StatusOf(e), e.terms.visibility, e.host.manager.Some?, e.host.manager == Some(viewer),
                IsMember(e.participants, viewer),
                latest.Some? && EffectiveJoinRequestStatus(latest.value.status, latest.value.expiresAt, now) == Pending)
  }

  /** `None` is the not-found answer. */
  function GetEventDetail(e: Event, viewer: UserId, trust: Option<int>, chatRoom: Option<nat>, now: int): Option<Relationship>
  {
    var access := Access(e, viewer, now);
    if !CanViewEventDetail(access) then None
    else
      Some(DeriveViewerRelationship(
             ViewerFacts(access.isManager, ActiveGuests(e.participants, viewer), Latest(e.requests, viewer),
                         access.status, e.terms.startsAt, e.terms.depositMinor, e.terms.minTrust,
                         access.hasManager, trust,
                         if access.isManager || access.isParticipant then chatRoom else None, now)))
  }

  /** Exactly who may open the page: the manager, whoever takes part or waits, and everyone while a managed PUBLIC event is open. */
  lemma WhoMayOpenThePage(e: Event, viewer: UserId, trust: Option<int>, chatRoom: Option<nat>, now: int)
    requires Inv(e)
    ensures GetEventDetail(e, viewer, trust, chatRoom, now).Some? <==>
              || e.host.manager == Some(viewer)
              || (&& e.phase != Preparing
                  && (|| TakesPart(e, viewer) || Waits(e, viewer, now)
                      || (e.terms.visibility == Public && e.phase == Open && e.host.manager.Some?)))
  {
    LatestIsThePendingOne(e, viewer, now);
    forall i | 0 <= i < |e.requests|
      ensures LivePending(e.requests[i], viewer, now) <==>
                e.requests[i].user == viewer && e.requests[i].status == Pending && now < e.requests[i].expiresAt
    {}
  }

  /** The one action that the page offers to each kind of viewer. */
  lemma PageActions(e: Event, viewer: UserId, trust: Option<int>, chatRoom: Option<nat>, now: int)
    requires Inv(e) && GetEventDetail(e, viewer, trust, chatRoom, now).Some?
    ensures var page := GetEventDetail(e, viewer, trust, chatRoom, now).value;
            && (page.action == Manage <==> e.host.manager == Some(viewer))
            && (page.action == OpenChat <==> TakesPart(e, viewer))
            && (page.action == AwaitingApproval <==> Waits(e, viewer, now))
            && (page.action == RequestToJoin <==> page.canRequestToJoin)
  {
    HostIsNoMember(e, viewer);
    LatestIsThePendingOne(e, viewer, now);
    WaiterIsOutside(e, viewer, now);
    ActionOf(ViewerFacts(e.host.manager == Some(viewer), ActiveGuests(e.participants, viewer), Latest(e.requests, viewer),
                         StatusOf(e), e.terms.startsAt, e.terms.depositMinor, e.terms.minTrust, e.host.manager.Some?, trust,
                         if e.host.manager == Some(viewer) || IsMember(e.participants, viewer) then chatRoom else None, now));
  }

  /** Whoever waits neither manages nor takes part. */
  lemma WaiterIsOutside(e: Event, user: UserId, now: int)
    requires Inv(e)
    ensures Waits(e, user, now) ==> e.host.manager != Some(user) && !IsMember(e.participants, user)
    ensures Waits(e, user, now) <==> Access(e, user, now).hasLivePendingRequest
  {
    LatestIsThePendingOne(e, user, now);
    forall i | 0 <= i < |e.requests|
      ensures LivePending(e.requests[i], user, now) <==>
                e.requests[i].user == user && e.requests[i].status == Pending && now < e.requests[i].expiresAt
    {}
  }

  lemma ActionOf(f: ViewerFacts)
    ensures var page := DeriveViewerRelationship(f);
            && (page.action == Manage <==> f.isManager)
            && (page.action == OpenChat <==> !f.isManager && f.activeGuests.Some?)
            && (page.action == AwaitingApproval <==>
                  && !f.isManager && f.activeGuests.None?
                  && f.latest.Some? && EffectiveJoinRequestStatus(f.latest.value.status, f.latest.value.expiresAt, f.now) == Pending)
            && (page.action == RequestToJoin <==> page.canRequestToJoin)
  {
  }

  /** The request shown is the viewer's newest, an overdue one as EXPIRED, with one seat for the viewer and one per guest. */
  lemma ShownRequest(e: Event, viewer: UserId, trust: Option<int>, chatRoom: Option<nat>, now: int, id: nat)
    requires GetEventDetail(e, viewer, trust, chatRoom, now).Some?
    requires id < |e.requests| && e.requests[id].user == viewer && forall i :: id < i < |e.requests| ==> e.requests[i].user != viewer
    ensures var shown := GetEventDetail(e, viewer, trust, chatRoom, now).value.joinRequest;
            var r := e.requests[id];
            shown == Some(RequestSummary(id, if r.status == Pending && r.expiresAt <= now then Expired else r.status, 1 + r.guests))
  {
    assert Latest(e.requests, viewer).value.id == id;
  }

  /** A PENDING request is its user's newest, so the page and the command see the same one. */
  lemma {:induction false} LatestIsThePendingOne(e: Event, user: UserId, now: int)
    requires Inv(e)
    ensures var latest := Latest(e.requests, user);
            var pending := PendingOf(e.requests, user);
            && (pending.Some? <==> latest.Some? && latest.value.status == Pending)
            && (pending.Some? ==> pending.value == latest.value.id)
    ensures Access(e, user, now).hasLivePendingRequest <==>
            exists i :: 0 <= i < |e.requests| && LivePending(e.requests[i], user, now)
  {
    var rs := e.requests;
    var latest := Latest(rs, user);
    var pending := PendingOf(rs, user);
    if pending.Some? {
      assert rs[pending.value].user == user;
      assert !(pending.value < latest.value.id);
    }
    if Access(e, user, now).hasLivePendingRequest {
      assert LivePending(rs[latest.value.id], user, now);
    }
    if i :| 0 <= i < |rs| && LivePending(rs[i], user, now) {
      assert !(i < latest.value.id);
      assert i == latest.value.id;
    }
  }

  /**
   * For every viewer whom the page admits and whose account is usable, the join
   * button is offered exactly when the command succeeds at that instant, and a
   * stated reason is exactly the command's error.
   */
  lemma {:induction false} ButtonMatchesCommand(e: Event, viewer: UserId, a: Account, chatRoom: Option<nat>, guests: nat, now: int)
    requires Inv(e) && a.available && !Suspended(a, now) && guests <= GUEST_LIMIT
    requires GetEventDetail(e, viewer, a.trust, chatRoom, now).Some?
    ensures var page := GetEventDetail(e, viewer, a.trust, chatRoom, now).value;
            var outcome := CreateRequest(e, viewer, a, guests, AllAt(now)).outcome;
            && (page.canRequestToJoin <==> outcome.Ok?)
            && (page.unavailable.Some? ==> outcome == Err(page.unavailable.value))
            && (page.action == AwaitingApproval ==> outcome == Err(RequestAlreadyExists))
            && (page.isManager ==> outcome == Err(SelfJoin))
  {
    LatestIsThePendingOne(e, viewer, now);
    CommandAnswer(e, viewer, a, guests, now);
  }

  /** What the command answers at one instant: its checks in their order. */
  lemma CommandAnswer(e: Event, user: UserId, a: Account, guests: nat, now: int)
    requires a.available && !Suspended(a, now) && guests <= GUEST_LIMIT && e.host.manager.Some?
    requires VisibleToRequester(e.host, StatusOf(e), e.terms, e.requests, e.participants, user, now)
    ensures var outcome := CreateRequest(e, user, a, guests, AllAt(now)).outcome;
            var live := PendingOf(e.requests, user);
            if live.Some? && !Due(e.requests[live.value], now) then outcome == Err(RequestAlreadyExists)
            else if e.host.manager == Some(user) then outcome == Err(SelfJoin)
            else if a.trust.None? || a.trust.value < e.terms.minTrust then outcome == Err(TrustRequired)
            else if !Joinable(StatusOf(e)) || e.terms.startsAt <= now then outcome == Err(NotJoinable)
            else if e.terms.depositMinor > 0 then outcome == Err(PaidJoinNotAvailable)
            else if IsMember(e.participants, user) then outcome == Err(AlreadyJoined)
            else outcome.Ok?
  {
    var live := PendingOf(e.requests, user);
    var e1 := if live.Some? then Expire(e, live.value, now) else e;
    assert StatusOf(e1) == StatusOf(e);
  }

  /**
   * A viewer whom the page refuses cannot join either. The command answers
   * not-found as well, except for a managed PUBLIC event that has started or
   * ended: the page hides it, the command says that it cannot be joined.
   */
  lemma {:induction false} HiddenEventsCannotBeJoined(e: Event, viewer: UserId, a: Account, chatRoom: Option<nat>,
                                                      guests: nat, now: int)
    requires Inv(e) && guests <= GUEST_LIMIT
    requires GetEventDetail(e, viewer, a.trust, chatRoom, now).None?
    ensures var outcome := CreateRequest(e, viewer, a, guests, AllAt(now)).outcome;
            && outcome.Err?
            && (outcome == Err(EventNotFound) <==>
                !(&& e.host.manager.Some? && e.terms.visibility == Public
                  && StatusOf(e) in {InProgress, Completed, Cancelled}))
  {
    LatestIsThePendingOne(e, viewer, now);
    var live := PendingOf(e.requests, viewer);
    var e1 := if live.Some? then Expire(e, live.value, now) else e;
    assert StatusOf(e1) == StatusOf(e);
  }

  /** The guest count the page reads is that of the user's newest row, which is the active one. */
  lemma {:induction false} ActiveGuestsAreNewest(ps: seq<Participant>, user: UserId)
    requires ActiveIsNewest(ps)
    ensures ActiveGuests(ps, user).Some? ==>
              var row := NewestRow(ps, user);
              row.Some? && ps[row.value].departure.None? && ps[row.value].guests == ActiveGuests(ps, user).value
  {
    var row := NewestRow(ps, user);
    var active := ActiveGuests(ps, user);
    if active.Some? {
      var k :| 0 <= k < |ps| && ps[k].user == user && ps[k].departure.None? && ps[k].guests == active.value;
      assert k <= row.value;
    }
  }

  /** What the page shows of the viewer's standing, as fields of the facts it reads. */
  lemma ShownFields(e: Event, viewer: UserId, trust: Option<int>, chatRoom: Option<nat>, now: int)
    requires GetEventDetail(e, viewer, trust, chatRoom, now).Some?
    ensures var page := GetEventDetail(e, viewer, trust, chatRoom, now).value;
            var isManager, active := e.host.manager == Some(viewer), ActiveGuests(e.participants, viewer);
            && page.isManager == isManager && page.isParticipant == (!isManager && active.Some?)
            && page.partySize == (if !isManager && active.Some? then Some(1 + active.value) else None)
            && page.chatRoom == (if isManager || active.Some? then chatRoom else None)
  {}

  lemma StandingFollows(page: Relationship, isManager: bool, active: Option<nat>, chatRoom: Option<nat>,
                        ps: seq<Participant>, viewer: UserId)
    requires ActiveIsNewest(ps) && active == ActiveGuests(ps, viewer) && (isManager ==> !IsMember(ps, viewer))
    requires page.isManager == isManager && page.isParticipant == (!isManager && active.Some?)
    requires page.partySize == (if !isManager && active.Some? then Some(1 + active.value) else None)
    requires page.chatRoom == (if isManager || active.Some? then chatRoom else None)
    ensures (page.isParticipant <==> IsMember(ps, viewer)) && !(page.isManager && page.isParticipant)
    ensures page.chatRoom == if isManager || IsMember(ps, viewer) then chatRoom else None
    ensures page.isParticipant ==>
              var row := NewestRow(ps, viewer);
              row.Some? && ps[row.value].departure.None? && page.partySize == Some(Occupied(ps[row.value]))
  {
    ActiveGuestsAreNewest(ps, viewer);
  }

  /** Chat and party size are shown to the manager and to active participants only, with the size of the active row. */
  lemma {:induction false} MembershipShown(e: Event, viewer: UserId, trust: Option<int>, chatRoom: Option<nat>, now: int)
    requires Inv(e) && GetEventDetail(e, viewer, trust, chatRoom, now).Some?
    ensures var page := GetEventDetail(e, viewer, trust, chatRoom, now).value;
            && (page.isParticipant <==> IsMember(e.participants, viewer))
            && !(page.isManager && page.isParticipant)
            && (page.chatRoom == if e.host.manager == Some(viewer) || IsMember(e.participants, viewer) then chatRoom else None)
            && (page.isParticipant ==>
                  var row := NewestRow(e.participants, viewer);
                  && row.Some? && e.participants[row.value].departure.None?
                  && page.partySize == Some(Occupied(e.participants[row.value])))
  {
    ShownFields(e, viewer, trust, chatRoom, now);
    HostIsNoMember(e, viewer);
    StandingFollows(GetEventDetail(e, viewer, trust, chatRoom, now).value, e.host.manager == Some(viewer),
                    ActiveGuests(e.participants, viewer), chatRoom, e.participants, viewer);
  }

  lemma HostIsNoMember(e: Event, viewer: UserId)
    requires HostStaysOut(e.host, e.requests, e.participants)
    ensures e.host.manager == Some(viewer) ==> !IsMember(e.participants, viewer)
  {}
}
