/**
 * The stored form of one event: the counters that triggers maintain, the status
 * column that the services flip, and the members of the event's chat room.
 * Every command makes the service's writes in the service's order, and is
 * proved to have the effect and the answer that `EventRules` gives it.
 */
module EventStore {
  import opened Common
  import opened EventRules
  import opened EventLaws

  /** The rows of the room; true for a member whose `left_at` is null. */
  type ChatMembers = map<UserId, bool>

  predicate InChat(members: ChatMembers, user: UserId) { user in members && members[user] }

  predicate EverJoined(ps: seq<Participant>, user: UserId) { exists k :: 0 <= k < |ps| && ps[k].user == user }

  /**
   * The room exists from the first approval on. It has a row for the manager and
   * for everyone who ever took part; the active ones are those of the manager and
   * of the active participants.
   */
  ghost predicate ChatAgrees(host: Host, roomExists: bool, members: ChatMembers, ps: seq<Participant>)
  {
    && (roomExists <==> ps != [])
    && (forall u: UserId :: u in members <==> (if host.manager == Some(u) then roomExists else EverJoined(ps, u)))
    && (forall u: UserId :: InChat(members, u) <==> (if host.manager == Some(u) then roomExists else IsMember(ps, u)))
  }

  lemma {:induction false} ChatAfterAdmission(host: Host, roomExists: bool, members: ChatMembers, ps: seq<Participant>,
                                              manager: UserId, p: Participant)
    requires ChatAgrees(host, roomExists, members, ps)
    requires host.manager == Some(manager) && p.user != manager && p.departure.None?
    ensures ChatAgrees(host, true, members[manager := true][p.user := true], ps + [p])
  {
    var after, ps1 := members[manager := true][p.user := true], ps + [p];
    assert ps1[|ps|] == p;
    forall u: UserId
      ensures EverJoined(ps1, u) <==> u == p.user || EverJoined(ps, u)
      ensures IsMember(ps1, u) <==> u == p.user || IsMember(ps, u)
    {
      AfterAppend(ps, p, u);
    }
    forall u: UserId ensures InChat(after, u) <==> (if host.manager == Some(u) then true else IsMember(ps1, u)) {
      assert InChat(members, u) <==> (if host.manager == Some(u) then roomExists else IsMember(ps, u));
    }
  }

  lemma AfterAppend(ps: seq<Participant>, p: Participant, u: UserId)
    requires p.departure.None?
    ensures EverJoined(ps + [p], u) <==> u == p.user || EverJoined(ps, u)
    ensures IsMember(ps + [p], u) <==> u == p.user || IsMember(ps, u)
  {
    var ps1 := ps + [p];
    assert ps1[|ps|] == p;
    if EverJoined(ps, u) {
      var k :| 0 <= k < |ps| && ps[k].user == u;
      assert ps1[k].user == u;
    }
    if IsMember(ps, u) {
      var k :| 0 <= k < |ps| && ps[k].user == u && ps[k].departure.None?;
      assert ps1[k] == ps[k];
    }
  }

  function WithoutMember(members: ChatMembers, user: UserId): ChatMembers
  {
    if InChat(members, user) then members[user := false] else members
  }

  lemma {:induction false} ChatAfterDeparture(e: Event, roomExists: bool, members: ChatMembers, user: UserId,
                                              actor: UserId, reason: Reason, at: int)
    requires Inv(e) && ChatAgrees(e.host, roomExists, members, e.participants) && e.host.manager != Some(user)
    requires EndParticipation(e, user, actor, reason, at).outcome.Ok?
    ensures ChatAgrees(e.host, roomExists, WithoutMember(members, user),
                       EndParticipation(e, user, actor, reason, at).event.participants)
  {
    EndFreesTheParty(e, user, actor, reason, at);
    EndKeepsUsers(e, user, actor, reason, at);
    var ps, ps1 := e.participants, EndParticipation(e, user, actor, reason, at).event.participants;
    ChatWithout(e.host, roomExists, members, ps, ps1, user);
  }

  /** The chat keeps agreeing when one member leaves and everyone else stays what they were. */
  lemma ChatWithout(host: Host, roomExists: bool, members: ChatMembers, ps: seq<Participant>, ps1: seq<Participant>,
                    user: UserId)
    requires ChatAgrees(host, roomExists, members, ps) && host.manager != Some(user)
    requires (ps == [] <==> ps1 == []) && !IsMember(ps1, user)
    requires forall u: UserId :: EverJoined(ps1, u) <==> EverJoined(ps, u)
    requires forall u: UserId :: u != user ==> (IsMember(ps1, u) <==> IsMember(ps, u))
    ensures ChatAgrees(host, roomExists, WithoutMember(members, user), ps1)
  {
    var after := WithoutMember(members, user);
    forall u: UserId
      ensures u in after <==> (if host.manager == Some(u) then roomExists else EverJoined(ps1, u))
      ensures InChat(after, u) <==> (if host.manager == Some(u) then roomExists else IsMember(ps1, u))
    {
      assert InChat(members, u) <==> (if host.manager == Some(u) then roomExists else IsMember(ps, u));
      assert InChat(after, u) <==> u != user && InChat(members, u);
    }
  }

  /** Nobody disappears from the rows. */
  lemma EndKeepsUsers(e: Event, user: UserId, actor: UserId, reason: Reason, at: int)
    ensures var ps, ps1 := e.participants, EndParticipation(e, user, actor, reason, at).event.participants;
            && (ps == [] <==> ps1 == [])
            && (forall u: UserId :: EverJoined(ps1, u) <==> EverJoined(ps, u))
  {
    var ps, ps1 := e.participants, EndParticipation(e, user, actor, reason, at).event.participants;
    forall u: UserId ensures EverJoined(ps1, u) <==> EverJoined(ps, u) {
      if k :| 0 <= k < |ps| && ps[k].user == u { assert ps1[k].user == u; }
    }
  }

  class EventRecord {
    const host: Host
    var status: Status
    var cancelledAt: Option<int>
    var terms: Terms
    var hostGuests: nat
    var capacityMax: nat
    var reservedSeatCount: nat
    var requests: seq<Request>
    var participants: seq<Participant>
    var roomExists: bool
    var chatMembers: ChatMembers
    /** The capacity at publication: history, never read by the program. */
    ghost var published: Option<nat>

    ghost function Model(): Event
      reads this
    {
      Event(host, PhaseOf(status), cancelledAt, terms, hostGuests, capacityMax, published, requests, participants)
    }

    /** The counters, the status column and the chat agree with the rules. */
    ghost predicate Agrees()
      reads this
    {
      && reservedSeatCount == Reserved(Model())
      && status == StatusOf(Model())
      && ChatAgrees(host, roomExists, chatMembers, participants)
    }

    ghost predicate Valid()
      reads this
    {
      Inv(Model()) && Agrees()
    }

    /** The INSERT of a draft, with the trigger that seeds the seat counter. */
    constructor (host: Host, terms: Terms, capacityMax: nat, hostGuests: nat)
      requires CapacityValid(capacityMax, hostGuests)
      requires if host.userHosted then host.manager.Some? else hostGuests == 0
      ensures Valid()
      ensures Model() == Event(host, Preparing, None, terms, hostGuests, capacityMax, None, [], [])
    {
      this.host, this.status, this.cancelledAt, this.terms := host, Draft, None, terms;
      this.hostGuests, this.capacityMax := hostGuests, capacityMax;
      this.reservedSeatCount := if host.userHosted then 1 + hostGuests else 0;
      this.requests, this.participants, this.roomExists, this.chatMembers := [], [], false, map[];
      this.published := None;
    }

    /** A user's new event; the fields are validated before anything is stored. */
    static method CreateEvent(owner: UserId, terms: Terms, capacityMax: int, hostGuests: int, checks: Checks)
      returns (created: Result<EventRecord, EventError>)
      ensures match NewDraft(owner, terms, capacityMax, hostGuests, checks)
              case Err(e) => created == Err(e)
              case Ok(draft) => created.Ok? && fresh(created.value) && created.value.Valid() && created.value.Model() == draft
                                && Initial(draft)
    {
      if !checks.body { return Err(InvalidInput); }
      if capacityMax < 1 || capacityMax > CAPACITY_LIMIT { return Err(InvalidInput); }
      if hostGuests < 0 || hostGuests > GUEST_LIMIT { return Err(InvalidInput); }
      if 1 + hostGuests > capacityMax { return Err(InvalidInput); }
      if !checks.rest { return Err(InvalidInput); }
      if checks.category.None? { return Err(CategoryNotFound); }
      var record := new EventRecord(Host(Some(owner), true), terms, capacityMax, hostGuests);
      return Ok(record);
    }

    // ---------- writes inside a command's transaction ----------

    method ExpireIfDue(id: nat, now: int) returns (expired: bool)
      requires id < |requests| && Agrees()
      modifies this`requests
      ensures expired == old(Due(requests[id], now))
      ensures Agrees() && Model() == old(Expire(Model(), id, now))
    {
      if requests[id].status != Pending || requests[id].expiresAt > now { return false; }
      CloseRequest(id, Expired, None, now);
      return true;
    }

    /** Sets the status, its timestamp and the decider of a request. */
    method CloseRequest(id: nat, newStatus: RequestStatus, decider: Option<UserId>, at: int)
      requires id < |requests| && Agrees()
      modifies this`requests
      ensures Agrees() && Model() == old(Close(Model(), id, newStatus, decider, at))
    {
      requests := requests[id := requests[id].(status := newStatus, closedAt := Some(at), decidedBy := decider)];
    }

    method CheckPending(id: nat, now: int) returns (failure: Option<EventError>)
      requires id < |requests| && Agrees()
      modifies this`requests
      ensures failure == old(PendingFailure(requests[id], now))
      ensures Agrees() && Model() == old(Expire(Model(), id, now))
    {
      var expired := ExpireIfDue(id, now);
      if expired || requests[id].status == Expired { return Some(RequestExpired); }
      return if requests[id].status == Pending then None else Some(RequestNotPending);
    }

    method EnsureEventRoom()
      modifies this`roomExists
      ensures roomExists
    {
      roomExists := true;
    }

    method ActivateEventMember(user: UserId)
      requires roomExists
      modifies this`chatMembers
      ensures chatMembers == old(chatMembers)[user := true]
    {
      chatMembers := chatMembers[user := true];
    }

    /** Only an active row is touched. */
    method DeactivateEventMember(user: UserId)
      modifies this`chatMembers
      ensures chatMembers == old(WithoutMember(chatMembers, user))
    {
      if user in chatMembers && chatMembers[user] {
        chatMembers := chatMembers[user := false];
      }
    }

    /** The INSERT of a membership row, with the trigger that adds its seats. */
    method InsertParticipant(p: Participant)
      requires p.departure.None? && reservedSeatCount + 1 + p.guests <= capacityMax
      modifies this`participants, this`reservedSeatCount
      ensures participants == old(participants) + [p]
      ensures reservedSeatCount == old(reservedSeatCount) + 1 + p.guests
    {
      participants := participants + [p];
      reservedSeatCount := reservedSeatCount + (1 + p.guests);
    }

    /** Decides the request, seats the party, opens the chat to both sides and closes the event when it is full. */
    method ApproveAndParticipate(id: nat, decider: Option<UserId>, at: int, expansion: Option<Expansion>, manager: UserId)
      requires id < |requests| && reservedSeatCount + 1 + requests[id].guests <= capacityMax
      modifies this`requests, this`participants, this`reservedSeatCount, this`roomExists, this`chatMembers, this`status
      ensures requests == old(requests[id := Closed(requests[id], Approved, decider, at).(expansion := expansion)])
      ensures participants == old(participants + [Participant(requests[id].user, id, requests[id].guests, None)])
      ensures reservedSeatCount == old(reservedSeatCount + 1 + requests[id].guests)
      ensures roomExists && chatMembers == old(chatMembers[manager := true][requests[id].user := true])
      ensures status == if reservedSeatCount == capacityMax && CanTransition(old(status), Full) then Full else old(status)
    {
      var user := requests[id].user;
      requests := requests[id := requests[id].(status := Approved, closedAt := Some(at), decidedBy := decider,
                                               expansion := expansion)];
      InsertParticipant(Participant(user, id, requests[id].guests, None));
      EnsureEventRoom();
      ActivateEventMember(manager);
      ActivateEventMember(user);
      if reservedSeatCount == capacityMax && CanTransition(status, Full) {
        status := Full;
      }
    }

    /**
     * An approval as the rules see it. An override raises the capacity first, to
     * exactly what the party needs, so that the seat counter never exceeds it.
     */
    method SeatParty(id: nat, decider: Option<UserId>, at: int, expansion: Option<Expansion>, manager: UserId)
      requires Agrees() && status in {Active, Full} && id < |requests|
      requires host.manager == Some(manager) && requests[id].user != manager
      requires var needed := reservedSeatCount + 1 + requests[id].guests;
               if expansion.Some? then expansion.value.after == needed else needed <= capacityMax
      modifies this`requests, this`participants, this`reservedSeatCount, this`roomExists, this`chatMembers, this`status,
               this`capacityMax
      ensures Agrees() && Model() == old(Admit(Model(), id, decider, at, expansion))
    {
      AdmitSeats(Model(), id, decider, at, expansion);
      ChatAfterAdmission(host, roomExists, chatMembers, participants, manager,
                         Participant(requests[id].user, id, requests[id].guests, None));
      if expansion.Some? {
        capacityMax := expansion.value.after;
      }
      ApproveAndParticipate(id, decider, at, expansion, manager);
    }

    /** The writes of a departure: the row, its seats, the chat member, and the status when a seat was freed. */
    method ReleaseParty(k: nat, d: Departure)
      requires k < |participants| && participants[k].departure.None? && reservedSeatCount >= 1 + participants[k].guests
      modifies this`participants, this`reservedSeatCount, this`chatMembers, this`status
      ensures participants == old(participants[k := participants[k].(departure := Some(d))])
      ensures reservedSeatCount == old(reservedSeatCount - (1 + participants[k].guests))
      ensures chatMembers == old(if roomExists then WithoutMember(chatMembers, participants[k].user) else chatMembers)
      ensures status == if old(status) == Full && reservedSeatCount < capacityMax then Active else old(status)
    {
      var wasFull := status == Full;
      participants := participants[k := participants[k].(departure := Some(d))];
      reservedSeatCount := reservedSeatCount - (1 + participants[k].guests);
      if roomExists {
        DeactivateEventMember(participants[k].user);
      }
      if wasFull && reservedSeatCount < capacityMax && CanTransition(status, Active) {
        status := Active;
      }
    }

    /** A departure as the rules see it. */
    method EndRow(k: nat, d: Departure)
      requires Agrees() && status in {Active, Full} && reservedSeatCount <= capacityMax
      requires k < |participants| && participants[k].departure.None?
      requires ChatAgrees(host, roomExists, WithoutMember(chatMembers, participants[k].user),
                          participants[k := participants[k].(departure := Some(d))])
      modifies this`participants, this`reservedSeatCount, this`chatMembers, this`status
      ensures Agrees() && Model() == old(WithDeparture(Model(), k, d))
    {
      DepartSeats(Model(), k, d);
      ReleaseParty(k, d);
    }

    /** The write path that leave and remove share. */
    method CancelParticipation(user: UserId, actor: UserId, reason: Reason, at: int)
      returns (outcome: Result<Reply, EventError>)
      requires Valid() && status in {Active, Full} && host.manager != Some(user)
      modifies this
      ensures Valid()
      ensures Answer(Model(), outcome) == old(EndParticipation(Model(), user, actor, reason, at))
      ensures outcome.Err? ==> chatMembers == old(chatMembers) && roomExists == old(roomExists)
    {
      var row := NewestRow(participants, user);
      if row.None? { return Err(NotAMember); }
      var k := row.value;
      if participants[k].departure.Some? {
        return Ok(Left(participants[k].departure.value));
      }
      var d := Departure(at, actor, reason);
      DepartKeepsInv(Model(), k, d);
      ChatAfterDeparture(Model(), roomExists, chatMembers, user, actor, reason, at);
      EndRow(k, d);
      return Ok(Left(d));
    }

    // ---------- commands ----------

    method CreateJoinRequest(user: UserId, a: Account, guests: int, c: Clock) returns (outcome: Result<Reply, EventError>)
      requires Valid()
      modifies this
      ensures Valid()
      ensures Answer(Model(), outcome) == old(CreateRequest(Model(), user, a, guests, c))
      ensures outcome.Err? ==> chatMembers == old(chatMembers) && roomExists == old(roomExists)
    {
      CreateKeepsInv(Model(), user, a, guests, c);
      outcome := RequestToJoin(user, a, guests, c);
    }

    method RequestToJoin(user: UserId, a: Account, guests: int, c: Clock) returns (outcome: Result<Reply, EventError>)
      requires Agrees()
      modifies this
      ensures Agrees()
      ensures Answer(Model(), outcome) == old(CreateRequest(Model(), user, a, guests, c))
      ensures outcome.Err? ==> chatMembers == old(chatMembers) && roomExists == old(roomExists)
    {
      if guests < 0 || guests > GUEST_LIMIT { return Err(InvalidInput); }
      if host.manager.None? { return Err(EventNotFound); }
      if !VisibleToRequester(host, status, terms, requests, participants, user, c.visibility) { return Err(EventNotFound); }
      var live := PendingOf(requests, user);
      if live.Some? {
        var expired := ExpireIfDue(live.value, c.pending);
        if !expired { return Err(RequestAlreadyExists); }
      }
      outcome := SubmitIfPermitted(user, a, guests, c, host.manager.value);
    }

    method SubmitIfPermitted(user: UserId, a: Account, guests: nat, c: Clock, manager: UserId)
      returns (outcome: Result<Reply, EventError>)
      requires Agrees() && host.manager == Some(manager)
      modifies this
      ensures Agrees()
      ensures Answer(Model(), outcome) == old(SubmitIfAllowed(Model(), user, a, guests, c))
      ensures outcome.Err? ==> chatMembers == old(chatMembers) && roomExists == old(roomExists)
    {
      var failure := EligibilityFailure(host, terms, user, a, c.account);
      if failure.Some? { return Err(failure.value); }
      failure := JoinableFailure(status, terms, c.joinable);
      if failure.Some? { return Err(failure.value); }
      if IsMember(participants, user) { return Err(AlreadyJoined); }
      var id := InsertRequest(user, guests, c, manager);
      return Ok(RequestId(id));
    }

    /** The insert with its capacity snapshot, and the automatic approval of a party that fits. */
    method InsertRequest(user: UserId, guests: nat, c: Clock, manager: UserId) returns (id: nat)
      requires Agrees() && host.manager == Some(manager) && manager != user && status in {Active, Full}
      modifies this`requests, this`participants, this`reservedSeatCount, this`roomExists, this`chatMembers, this`status,
               this`capacityMax
      ensures Agrees()
      ensures Accept(Model(), RequestId(id)) == old(SubmitRequest(Model(), user, guests, c))
    {
      var fitsNow := 1 + guests <= capacityMax - reservedSeatCount;
      id := |requests|;
      requests := requests + [Request(user, guests, Pending, c.stamp, c.stamp + REQUEST_LIFETIME,
                                      capacityMax, reservedSeatCount, None, None, None)];
      if !terms.approvalRequired && fitsNow {
        SeatParty(id, None, c.approval, None, manager);
      }
    }

    method CancelJoinRequest(user: UserId, id: nat, c: Clock) returns (outcome: Result<Reply, EventError>)
      requires Valid()
      modifies this
      ensures Valid()
      ensures Answer(Model(), outcome) == old(CancelRequest(Model(), user, id, c))
      ensures chatMembers == old(chatMembers) && roomExists == old(roomExists)
    {
      CancelRequestKeepsInv(Model(), user, id, c);
      outcome := WithdrawRequest(user, id, c);
    }

    method WithdrawRequest(user: UserId, id: nat, c: Clock) returns (outcome: Result<Reply, EventError>)
      requires Agrees()
      modifies this`requests
      ensures Agrees()
      ensures Answer(Model(), outcome) == old(CancelRequest(Model(), user, id, c))
    {
      if id >= |requests| || requests[id].user != user { return Err(RequestNotFound); }
      var failure := CheckPending(id, c.pending);
      if failure.Some? { return Err(failure.value); }
      CloseRequest(id, Withdrawn, None, c.stamp);
      return Ok(RequestId(id));
    }

    method RejectJoinRequest(actor: UserId, id: nat, c: Clock) returns (outcome: Result<Reply, EventError>)
      requires Valid()
      modifies this
      ensures Valid()
      ensures Answer(Model(), outcome) == old(RejectRequest(Model(), actor, id, c))
      ensures chatMembers == old(chatMembers) && roomExists == old(roomExists)
    {
      RejectKeepsInv(Model(), actor, id, c);
      outcome := RejectPending(actor, id, c);
    }

    method RejectPending(actor: UserId, id: nat, c: Clock) returns (outcome: Result<Reply, EventError>)
      requires Agrees()
      modifies this`requests
      ensures Agrees()
      ensures Answer(Model(), outcome) == old(RejectRequest(Model(), actor, id, c))
    {
      if host.manager != Some(actor) { return Err(EventNotFound); }
      if id >= |requests| { return Err(RequestNotFound); }
      var failure := CheckPending(id, c.pending);
      if failure.Some? { return Err(failure.value); }
      CloseRequest(id, Rejected, Some(actor), c.stamp);
      return Ok(RequestId(id));
    }

    /** The checks in front of both kinds of approval; `None` lets the decision proceed. */
    method CheckDecision(actor: UserId, id: nat, a: Account, c: Clock) returns (failure: Option<EventError>)
      requires Agrees()
      modifies this`requests
      ensures Agrees()
      ensures old(DecisionGate(Model(), actor, id, a, c)) ==
              (if failure.Some? then Some(Refuse(Model(), failure.value)) else None)
      ensures failure.None? ==> requests == old(requests) && status in {Active, Full} && host.manager != Some(requests[id].user)
    {
      if host.manager != Some(actor) { return Some(EventNotFound); }
      if id >= |requests| { return Some(RequestNotFound); }
      failure := CheckPending(id, c.pending);
      if failure.Some? { return; }
      var ineligible := EligibilityFailure(host, terms, requests[id].user, a, c.account);
      failure := CheckPending(id, c.recheck);
      if failure.Some? { return; }
      if ineligible.Some? { return ineligible; }
      failure := JoinableFailure(status, terms, c.joinable);
    }

    method ApproveJoinRequest(actor: UserId, id: nat, a: Account, c: Clock) returns (outcome: Result<Reply, EventError>)
      requires Valid()
      modifies this
      ensures Valid()
      ensures Answer(Model(), outcome) == old(ApproveRequest(Model(), actor, id, a, c))
      ensures outcome.Err? ==> chatMembers == old(chatMembers) && roomExists == old(roomExists)
    {
      ApproveKeepsInv(Model(), actor, id, a, c);
      outcome := DecideWithinCapacity(actor, id, a, c);
    }

    method DecideWithinCapacity(actor: UserId, id: nat, a: Account, c: Clock) returns (outcome: Result<Reply, EventError>)
      requires Agrees()
      modifies this
      ensures Agrees()
      ensures Answer(Model(), outcome) == old(ApproveRequest(Model(), actor, id, a, c))
      ensures outcome.Err? ==> chatMembers == old(chatMembers) && roomExists == old(roomExists)
    {
      var failure := CheckDecision(actor, id, a, c);
      if failure.Some? { return Err(failure.value); }
      var requestedSeats := 1 + requests[id].guests;
      if requestedSeats > capacityMax - reservedSeatCount { return Err(OverrideRequired); }
      SeatParty(id, Some(actor), c.approval, None, actor);
      return Ok(RequestId(id));
    }

    method ApproveWithCapacityOverride(actor: UserId, id: nat, a: Account, c: Clock)
      returns (outcome: Result<Reply, EventError>)
      requires Valid()
      modifies this
      ensures Valid()
      ensures Answer(Model(), outcome) == old(ApproveWithOverride(Model(), actor, id, a, c))
      ensures outcome.Err? ==> chatMembers == old(chatMembers) && roomExists == old(roomExists)
    {
      OverrideKeepsInv(Model(), actor, id, a, c);
      outcome := DecideWithOverride(actor, id, a, c);
    }

    method DecideWithOverride(actor: UserId, id: nat, a: Account, c: Clock) returns (outcome: Result<Reply, EventError>)
      requires Agrees()
      modifies this
      ensures Agrees()
      ensures Answer(Model(), outcome) == old(ApproveWithOverride(Model(), actor, id, a, c))
      ensures outcome.Err? ==> chatMembers == old(chatMembers) && roomExists == old(roomExists)
    {
      var failure := CheckDecision(actor, id, a, c);
      if failure.Some? { return Err(failure.value); }
      outcome := SeatBeyondCapacity(actor, id, c);
    }

    method SeatBeyondCapacity(actor: UserId, id: nat, c: Clock) returns (outcome: Result<Reply, EventError>)
      requires Agrees() && status in {Active, Full} && id < |requests|
      requires host.manager == Some(actor) && requests[id].user != actor
      modifies this
      ensures Agrees()
      ensures Answer(Model(), outcome) == old(SeatOrRefuse(Model(), id, actor, c.approval))
      ensures outcome.Err? ==> chatMembers == old(chatMembers) && roomExists == old(roomExists)
    {
      var requestedSeats := 1 + requests[id].guests;
      if requestedSeats <= capacityMax - reservedSeatCount {
        SeatParty(id, Some(actor), c.approval, None, actor);
        return Ok(RequestId(id));
      }
      var required := reservedSeatCount + requestedSeats;
      if required > CAPACITY_LIMIT { return Err(OverrideLimitExceeded); }
      SeatParty(id, Some(actor), c.approval, Some(Expansion(capacityMax, required)), actor);
      return Ok(RequestId(id));
    }

    method Leave(user: UserId, c: Clock) returns (outcome: Result<Reply, EventError>)
      requires Valid()
      modifies this
      ensures Valid()
      ensures Answer(Model(), outcome) == old(LeaveEvent(Model(), user, c))
      ensures outcome.Err? ==> chatMembers == old(chatMembers) && roomExists == old(roomExists)
    {
      if host.manager == Some(user) { return Err(HostCannotLeave); }
      var window := WindowFailure(status, terms, c.joinable);
      if window.Some? { return Err(window.value); }
      outcome := CancelParticipation(user, user, VoluntaryLeave, c.stamp);
    }

    method Remove(actor: UserId, user: UserId, c: Clock) returns (outcome: Result<Reply, EventError>)
      requires Valid()
      modifies this
      ensures Valid()
      ensures Answer(Model(), outcome) == old(RemoveParticipant(Model(), actor, user, c))
      ensures outcome.Err? ==> chatMembers == old(chatMembers) && roomExists == old(roomExists)
    {
      if host.manager != Some(actor) { return Err(EventNotFound); }
      if user == actor { return Err(HostCannotRemoveSelf); }
      var window := WindowFailure(status, terms, c.joinable);
      if window.Some? { return Err(window.value); }
      outcome := CancelParticipation(user, actor, HostRemoval, c.stamp);
    }

    /** The saved draft, with the trigger that moves the seat counter by the change of the host's party. */
    method UpdateEvent(actor: UserId, newTerms: Terms, newCapacityMax: int, newHostGuests: int, checks: Checks)
      returns (outcome: Result<Reply, EventError>)
      requires Valid()
      modifies this
      ensures Valid()
      ensures Answer(Model(), outcome) == old(UpdateDraft(Model(), actor, newTerms, newCapacityMax, newHostGuests, checks))
      ensures chatMembers == old(chatMembers) && roomExists == old(roomExists)
    {
      UpdateKeepsInv(Model(), actor, newTerms, newCapacityMax, newHostGuests, checks);
      if !checks.body { return Err(InvalidInput); }
      if host.manager != Some(actor) { return Err(EventNotFound); }
      if status != Draft { return Err(DraftRequired); }
      if checks.category.None? { return Err(CategoryNotFound); }
      if newCapacityMax < 1 || newCapacityMax > CAPACITY_LIMIT { return Err(InvalidInput); }
      if newHostGuests < 0 || newHostGuests > GUEST_LIMIT { return Err(InvalidInput); }
      if 1 + newHostGuests > newCapacityMax { return Err(InvalidInput); }
      if !host.userHosted && newHostGuests != 0 { return Err(InvalidInput); }
      if !checks.rest { return Err(InvalidInput); }
      SaveDraft(newTerms, newCapacityMax, newHostGuests);
      return Ok(Done);
    }

    method SaveDraft(newTerms: Terms, newCapacityMax: nat, newHostGuests: nat)
      requires Agrees() && status == Draft
      modifies this`terms, this`capacityMax, this`hostGuests, this`reservedSeatCount
      ensures Agrees()
      ensures Model() == old(Model()).(terms := newTerms, capacityMax := newCapacityMax, hostGuests := newHostGuests)
    {
      if host.userHosted {
        reservedSeatCount := reservedSeatCount - hostGuests + newHostGuests;
      }
      terms, capacityMax, hostGuests := newTerms, newCapacityMax, newHostGuests;
    }

    /** A host party that alone fills the capacity publishes straight to FULL. */
    method PublishEvent(actor: UserId, checks: Checks, now: int) returns (outcome: Result<Reply, EventError>)
      requires Valid()
      modifies this
      ensures Valid()
      ensures Answer(Model(), outcome) == old(Publish(Model(), actor, checks, now))
      ensures chatMembers == old(chatMembers) && roomExists == old(roomExists)
    {
      PublishKeepsInv(Model(), actor, checks, now);
      if host.manager != Some(actor) { return Err(EventNotFound); }
      if status != Draft { return Err(PublishNotAllowed); }
      if checks.category.None? { return Err(CategoryNotFound); }
      if !checks.category.value { return Err(InactiveCategory); }
      if !checks.rest { return Err(InvalidInput); }
      if terms.startsAt <= now { return Err(AlreadyStarted); }
      OpenForJoining();
      return Ok(Done);
    }

    method OpenForJoining()
      requires Agrees() && status == Draft && participants == [] && capacityMax >= 1
      modifies this`status, this`published
      ensures Agrees() && Model() == old(Model()).(phase := Open, published := Some(old(capacityMax)))
    {
      var hostPartyFillsCapacity := host.userHosted && 1 + hostGuests == capacityMax;
      status := if hostPartyFillsCapacity then Full else Active;
      published := Some(capacityMax);
    }

    method CancelEvent(actor: UserId, now: int) returns (outcome: Result<Reply, EventError>)
      requires Valid()
      modifies this
      ensures Valid()
      ensures Answer(Model(), outcome) == old(EventRules.CancelEvent(Model(), actor, now))
      ensures chatMembers == old(chatMembers) && roomExists == old(roomExists)
    {
      CancelEventKeepsInv(Model(), actor, now);
      outcome := CallOff(actor, now);
    }

    method CallOff(actor: UserId, now: int) returns (outcome: Result<Reply, EventError>)
      requires Agrees()
      modifies this`status, this`cancelledAt
      ensures Agrees()
      ensures Answer(Model(), outcome) == old(EventRules.CancelEvent(Model(), actor, now))
    {
      if host.manager != Some(actor) { return Err(EventNotFound); }
      if !CanTransition(status, Cancelled) { return Err(CancelNotAllowed); }
      status := Cancelled;
      cancelledAt := Some(now);
      return Ok(Done);
    }

    /** A start or completion written by whoever maintains the database; its guard admits the table's transitions only. */
    method ProgressEvent(target: Status)
      requires Valid()
      modifies this`status
      ensures Valid() && Model() == old(Progress(Model(), target))
    {
      ProgressKeepsInv(Model(), target);
      MoveStatus(target);
    }

    method MoveStatus(target: Status)
      requires Agrees()
      modifies this`status
      ensures Agrees() && Model() == old(Progress(Model(), target))
    {
      if target in {InProgress, Completed} && CanTransition(status, target) {
        status := target;
      }
    }
  }
}
