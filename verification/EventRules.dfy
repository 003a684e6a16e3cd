/**
 * The rules of one event: its lifecycle, its join requests and its seats.
 *
 * Nothing that can be derived is stored here: occupied seats are the sum over
 * the active parties, and FULL means that this sum has reached the capacity.
 * `EventStore` keeps the counters, the status column and the chat members the
 * way the services and triggers do, and is proved to agree with this module.
 * Instants are milliseconds; every command receives one clock reading for each
 * place where the service reads the clock, in no particular order.
 */
module EventRules {
  import opened Common

  type UserId = nat

  const CAPACITY_LIMIT: nat := 10_000
  const GUEST_LIMIT: nat := 9999
  const REQUEST_LIFETIME: nat := 24 * 60 * 60 * 1000

  datatype Status = Draft | Active | Full | InProgress | Completed | Cancelled

  predicate CanTransition(from: Status, target: Status)
  {
    match from
    case Draft => target in {Active, Full, Cancelled}
    case Active => target in {Full, InProgress, Cancelled}
    case Full => target in {Active, InProgress, Cancelled}
    case InProgress => target in {Completed, Cancelled}
    case Completed => false
    case Cancelled => false
  }

  datatype Visibility = Public | Unlisted | Private

  /** The settings that a draft may change and that do not count seats. Trust is in hundredths. */
  datatype Terms = Terms(visibility: Visibility, startsAt: int, depositMinor: nat, minTrust: nat, approvalRequired: bool)

  /** Who hosts: `manager` is absent for the session of an unclaimed provider. */
  datatype Host = Host(manager: Option<UserId>, userHosted: bool)

  datatype RequestStatus = Pending | Approved | Rejected | Expired | Withdrawn

  /** Evidence of a capacity override. */
  datatype Expansion = Expansion(before: nat, after: nat)

  /** `closedAt` is the timestamp of whatever ended the PENDING state. A request's id is its position. */
  datatype Request = Request(user: UserId, guests: nat, status: RequestStatus, requestedAt: int, expiresAt: int,
                             capacityAtRequest: nat, reservedAtRequest: nat,
                             closedAt: Option<int>, decidedBy: Option<UserId>, expansion: Option<Expansion>)

  datatype Reason = VoluntaryLeave | HostRemoval

  datatype Departure = Departure(at: int, actor: UserId, reason: Reason)

  /** One membership row; rows are in order of insertion. */
  datatype Participant = Participant(user: UserId, request: nat, guests: nat, departure: Option<Departure>)

  /** The lifecycle without the ACTIVE/FULL distinction. */
  datatype Phase = Preparing | Open | Underway | Finished | CalledOff

  datatype Event = Event(host: Host, phase: Phase, cancelledAt: Option<int>, terms: Terms, hostGuests: nat, capacityMax: nat,
                         published: Option<nat>, requests: seq<Request>, participants: seq<Participant>)

  // ---------- derived facts ----------

  function Occupied(p: Participant): nat { if p.departure.None? then 1 + p.guests else 0 }

  function PartySeats(ps: seq<Participant>): nat
  {
    if |ps| == 0 then 0 else PartySeats(ps[..|ps| - 1]) + Occupied(ps[|ps| - 1])
  }

  function HostSeats(userHosted: bool, hostGuests: nat): nat { if userHosted then 1 + hostGuests else 0 }

  function Reserved(e: Event): nat { HostSeats(e.host.userHosted, e.hostGuests) + PartySeats(e.participants) }

  function StatusOf(e: Event): Status
  {
    match e.phase
    case Preparing => Draft
    case Open => if Reserved(e) == e.capacityMax then Full else Active
    case Underway => InProgress
    case Finished => Completed
    case CalledOff => Cancelled
  }

  function PhaseOf(s: Status): Phase
  {
    match s
    case Draft => Preparing
    case Active => Open
    case Full => Open
    case InProgress => Underway
    case Completed => Finished
    case Cancelled => CalledOff
  }

  predicate IsMember(ps: seq<Participant>, user: UserId)
  {
    exists k :: 0 <= k < |ps| && ps[k].user == user && ps[k].departure.None?
  }

  /** The newest row of a user: `ORDER BY joined_at DESC LIMIT 1`. */
  function NewestRow(ps: seq<Participant>, user: UserId): (r: Option<nat>)
    ensures r.Some? ==> r.value < |ps| && ps[r.value].user == user
    ensures r.Some? ==> forall j :: r.value < j < |ps| ==> ps[j].user != user
    ensures r.None? ==> forall j :: 0 <= j < |ps| ==> ps[j].user != user
  {
    if |ps| == 0 then None
    else if ps[|ps| - 1].user == user then Some(|ps| - 1)
    else NewestRow(ps[..|ps| - 1], user)
  }

  function PendingOf(rs: seq<Request>, user: UserId): (r: Option<nat>)
    ensures r.Some? ==> r.value < |rs| && rs[r.value].user == user && rs[r.value].status == Pending
    ensures r.None? ==> forall j :: 0 <= j < |rs| && rs[j].user == user ==> rs[j].status != Pending
  {
    if |rs| == 0 then None
    else if rs[|rs| - 1].user == user && rs[|rs| - 1].status == Pending then Some(|rs| - 1)
    else PendingOf(rs[..|rs| - 1], user)
  }

  /** Seats that overrides have added to the capacity. */
  function Added(rs: seq<Request>): int
  {
    if |rs| == 0 then 0 else Added(rs[..|rs| - 1]) + Growth(rs[|rs| - 1])
  }

  function Growth(r: Request): int
  {
    if r.expansion.Some? then r.expansion.value.after - r.expansion.value.before else 0
  }

  lemma {:induction false} PartySeatsUpdate(ps: seq<Participant>, k: nat, p: Participant)
    requires k < |ps|
    ensures PartySeats(ps[k := p]) == PartySeats(ps) - Occupied(ps[k]) + Occupied(p)
  {
    var n := |ps| - 1;
    if k == n {
      assert ps[k := p][..n] == ps[..n];
    } else {
      PartySeatsUpdate(ps[..n], k, p);
      assert ps[k := p][..n] == ps[..n][k := p];
    }
  }

  lemma {:induction false} PartySeatsAppend(ps: seq<Participant>, p: Participant)
    ensures PartySeats(ps + [p]) == PartySeats(ps) + Occupied(p)
  {
    assert (ps + [p])[..|ps|] == ps;
  }

  lemma {:induction false} AddedUpdate(rs: seq<Request>, i: nat, r: Request)
    requires i < |rs|
    ensures Added(rs[i := r]) == Added(rs) - Growth(rs[i]) + Growth(r)
  {
    var n := |rs| - 1;
    if i == n {
      assert rs[i := r][..n] == rs[..n];
    } else {
      AddedUpdate(rs[..n], i, r);
      assert rs[i := r][..n] == rs[..n][i := r];
    }
  }

  lemma {:induction false} AddedAppend(rs: seq<Request>, r: Request)
    ensures Added(rs + [r]) == Added(rs) + Growth(r)
  {
    assert (rs + [r])[..|rs|] == rs;
  }

  // ---------- the invariant ----------

  ghost predicate PendingIsNewest(rs: seq<Request>)
  {
    forall i, j :: 0 <= i < j < |rs| && rs[i].status == Pending ==> rs[j].user != rs[i].user
  }

  ghost predicate ActiveIsNewest(ps: seq<Participant>)
  {
    forall k, l :: 0 <= k < l < |ps| && ps[k].departure.None? ==> ps[l].user != ps[k].user
  }

  ghost predicate FromApproval(rs: seq<Request>, p: Participant)
  {
    && p.request < |rs|
    && rs[p.request].status == Approved
    && rs[p.request].user == p.user
    && rs[p.request].guests == p.guests
  }

  ghost predicate HasRow(ps: seq<Participant>, id: nat)
  {
    exists k :: 0 <= k < |ps| && ps[k].request == id
  }

  /** Approved requests and membership rows correspond one to one. */
  ghost predicate RowsMatchApprovals(rs: seq<Request>, ps: seq<Participant>)
  {
    && (forall k :: 0 <= k < |ps| ==> FromApproval(rs, ps[k]))
    && (forall k, l :: 0 <= k < l < |ps| ==> ps[k].request != ps[l].request)
    && (forall i :: 0 <= i < |rs| && rs[i].status == Approved ==> HasRow(ps, i))
  }

  ghost predicate PendingIsNoMember(rs: seq<Request>, ps: seq<Participant>)
  {
    forall i, k :: 0 <= i < |rs| && 0 <= k < |ps| && rs[i].status == Pending && ps[k].user == rs[i].user ==>
                     ps[k].departure.Some?
  }

  ghost predicate RequestOk(r: Request)
  {
    && r.guests <= GUEST_LIMIT
    && r.expiresAt == r.requestedAt + REQUEST_LIFETIME
    && (r.status == Pending <==> r.closedAt.None?)
    && (r.expansion.Some? ==> r.status == Approved && r.expansion.value.before < r.expansion.value.after)
  }

  ghost predicate RequestsOk(rs: seq<Request>) { forall i :: 0 <= i < |rs| ==> RequestOk(rs[i]) }

  /** The manager neither asks nor takes part. */
  ghost predicate HostStaysOut(host: Host, rs: seq<Request>, ps: seq<Participant>)
  {
    && (forall k :: 0 <= k < |ps| ==> host.manager != Some(ps[k].user))
    && (forall i :: 0 <= i < |rs| ==> host.manager != Some(rs[i].user))
  }

  ghost predicate SeatsInv(e: Event)
  {
    && 1 <= e.capacityMax <= CAPACITY_LIMIT
    && Reserved(e) <= e.capacityMax
    && 1 + e.hostGuests <= e.capacityMax
    && (e.published.Some? ==> e.capacityMax == e.published.value + Added(e.requests))
  }

  ghost predicate LifecycleInv(e: Event)
  {
    && (e.phase == Preparing ==> e.published.None?)
    && (e.phase in {Open, Underway, Finished} ==> e.published.Some?)
    && (e.published.None? || e.host.manager.None? ==> e.requests == [] && e.participants == [])
    && (e.host.userHosted ==> e.host.manager.Some?)
    && (e.cancelledAt.Some? <==> e.phase == CalledOff)
  }

  ghost predicate PeopleInv(e: Event)
  {
    && RequestsOk(e.requests)
    && PendingIsNewest(e.requests)
    && ActiveIsNewest(e.participants)
    && RowsMatchApprovals(e.requests, e.participants)
    && PendingIsNoMember(e.requests, e.participants)
    && HostStaysOut(e.host, e.requests, e.participants)
  }

  ghost predicate Inv(e: Event)
  {
    SeatsInv(e) && LifecycleInv(e) && PeopleInv(e)
  }

  // ---------- commands ----------

  datatype Account = Account(available: bool, suspensions: seq<Suspension>, trust: Option<int>)

  datatype Suspension = Suspension(startsAt: int, endsAt: Option<int>, lifted: bool)

  predicate Suspended(a: Account, now: int)
  {
    exists i :: 0 <= i < |a.suspensions| && InForce(a.suspensions[i], now)
  }

  predicate InForce(s: Suspension, now: int)
  {
    s.startsAt <= now && !s.lifted && (s.endsAt.None? || s.endsAt.value > now)
  }

  /** The clock readings of one command, named after what they are compared with. */
  datatype Clock = Clock(visibility: int, pending: int, account: int, recheck: int, joinable: int,
                         stamp: int, approval: int)

  function AllAt(now: int): Clock { Clock(now, now, now, now, now, now, now) }

  datatype EventError =
    | InvalidInput | EventNotFound | RequestNotFound | RequestNotPending | RequestExpired | RequestAlreadyExists
    | AlreadyJoined | SelfJoin | AccountUnavailable | TrustRequired | NotJoinable | PaidJoinNotAvailable
    | OverrideRequired | OverrideLimitExceeded | HostCannotLeave | HostCannotRemoveSelf | MembershipLocked
    | NotAMember | DraftRequired | PublishNotAllowed | CategoryNotFound | InactiveCategory | AlreadyStarted
    | CancelNotAllowed

  datatype Reply = Done | RequestId(id: nat) | Left(departure: Departure)

  datatype Answer = Answer(event: Event, outcome: Result<Reply, EventError>)

  function Refuse(e: Event, error: EventError): Answer { Answer(e, Err(error)) }

  function Accept(e: Event, reply: Reply): Answer { Answer(e, Ok(reply)) }

  function Closed(r: Request, status: RequestStatus, decider: Option<UserId>, at: int): Request
  {
    r.(status := status, decidedBy := decider, closedAt := Some(at))
  }

  function Close(e: Event, id: nat, status: RequestStatus, decider: Option<UserId>, at: int): Event
    requires id < |e.requests|
  {
    e.(requests := e.requests[id := Closed(e.requests[id], status, decider, at)])
  }

  predicate Due(r: Request, now: int) { r.status == Pending && r.expiresAt <= now }

  /** A due request becomes EXPIRED; anything else stays. */
  function Expire(e: Event, id: nat, now: int): Event
    requires id < |e.requests|
  {
    if Due(e.requests[id], now) then Close(e, id, Expired, None, now) else e
  }

  /** What `pendingFailure` returns; the caller has already expired a due request. */
  function PendingFailure(r: Request, now: int): Option<EventError>
  {
    if Due(r, now) || r.status == Expired then Some(RequestExpired)
    else if r.status == Pending then None
    else Some(RequestNotPending)
  }

  function EligibilityFailure(host: Host, terms: Terms, user: UserId, a: Account, now: int): Option<EventError>
  {
    if host.manager == Some(user) then Some(SelfJoin)
    else if !a.available || Suspended(a, now) then Some(AccountUnavailable)
    else if a.trust.None? || a.trust.value < terms.minTrust then Some(TrustRequired)
    else None
  }

  function JoinableFailure(status: Status, terms: Terms, now: int): Option<EventError>
  {
    if !(status == Active || status == Full) || terms.startsAt <= now then Some(NotJoinable)
    else if terms.depositMinor > 0 then Some(PaidJoinNotAvailable)
    else None
  }

  function WindowFailure(status: Status, terms: Terms, now: int): Option<EventError>
  {
    if !(status == Active || status == Full) || terms.startsAt <= now then Some(MembershipLocked) else None
  }

  predicate Fits(e: Event, guests: nat) { 1 + guests <= e.capacityMax - Reserved(e) }

  predicate VisibleToRequester(host: Host, status: Status, terms: Terms, rs: seq<Request>, ps: seq<Participant>,
                               user: UserId, now: int)
  {
    || host.manager == Some(user)
    || (&& status != Draft
        && (|| terms.visibility == Public
            || IsMember(ps, user)
            || (exists i :: 0 <= i < |rs| && LivePending(rs[i], user, now))))
  }

  predicate LivePending(r: Request, user: UserId, now: int)
  {
    r.user == user && r.status == Pending && r.expiresAt > now
  }

  function NewRequest(e: Event, user: UserId, guests: nat, now: int): Request
  {
    Request(user, guests, Pending, now, now + REQUEST_LIFETIME, e.capacityMax, Reserved(e), None, None, None)
  }

  /** Approval: the request is decided, the membership row appears, an override raises the capacity. */
  function Admit(e: Event, id: nat, decider: Option<UserId>, at: int, expansion: Option<Expansion>): Event
    requires id < |e.requests|
  {
    var r := e.requests[id];
    e.(capacityMax := if expansion.Some? then expansion.value.after else e.capacityMax,
       requests := e.requests[id := Closed(r, Approved, decider, at).(expansion := expansion)],
       participants := e.participants + [Participant(r.user, id, r.guests, None)])
  }

  function CreateRequest(e: Event, user: UserId, a: Account, guests: int, c: Clock): Answer
  {
    if !(0 <= guests <= GUEST_LIMIT) then Refuse(e, InvalidInput)
    else if e.host.manager.None? then Refuse(e, EventNotFound)
    else if !VisibleToRequester(e.host, StatusOf(e), e.terms, e.requests, e.participants, user, c.visibility) then
      Refuse(e, EventNotFound)
    else
      var live := PendingOf(e.requests, user);
      if live.Some? && !Due(e.requests[live.value], c.pending) then Refuse(e, RequestAlreadyExists)
      else
        SubmitIfAllowed(if live.Some? then Expire(e, live.value, c.pending) else e, user, a, guests, c)
  }

  /** The rest of a creation, once an overdue request is out of the way; that expiry commits even on a refusal. */
  function SubmitIfAllowed(e: Event, user: UserId, a: Account, guests: nat, c: Clock): Answer
  {
    var ineligible := EligibilityFailure(e.host, e.terms, user, a, c.account);
    var closed := JoinableFailure(StatusOf(e), e.terms, c.joinable);
    if ineligible.Some? then Refuse(e, ineligible.value)
    else if closed.Some? then Refuse(e, closed.value)
    else if IsMember(e.participants, user) then Refuse(e, AlreadyJoined)
    else SubmitRequest(e, user, guests, c)
  }

  /** The insert and, when the event approves by itself and the party fits, the approval. */
  function SubmitRequest(e: Event, user: UserId, guests: nat, c: Clock): Answer
  {
    var id := |e.requests|;
    var e1 := e.(requests := e.requests + [NewRequest(e, user, guests, c.stamp)]);
    Accept(if !e.terms.approvalRequired && Fits(e, guests) then Admit(e1, id, None, c.approval, None) else e1,
           RequestId(id))
  }

  function CancelRequest(e: Event, user: UserId, id: nat, c: Clock): Answer
  {
    if id >= |e.requests| || e.requests[id].user != user then Refuse(e, RequestNotFound)
    else
      var failure := PendingFailure(e.requests[id], c.pending);
      if failure.Some? then Refuse(Expire(e, id, c.pending), failure.value)
      else Accept(Close(e, id, Withdrawn, None, c.stamp), RequestId(id))
  }

  function RejectRequest(e: Event, actor: UserId, id: nat, c: Clock): Answer
  {
    if e.host.manager != Some(actor) then Refuse(e, EventNotFound)
    else if id >= |e.requests| then Refuse(e, RequestNotFound)
    else
      var failure := PendingFailure(e.requests[id], c.pending);
      if failure.Some? then Refuse(Expire(e, id, c.pending), failure.value)
      else Accept(Close(e, id, Rejected, Some(actor), c.stamp), RequestId(id))
  }

  /** The gates that ordinary and overriding approval share; `None` lets the decision proceed. */
  function DecisionGate(e: Event, actor: UserId, id: nat, a: Account, c: Clock): (r: Option<Answer>)
    ensures r.None? ==> id < |e.requests| && e.requests[id].status == Pending && e.host.manager == Some(actor)
  {
    if e.host.manager != Some(actor) then Some(Refuse(e, EventNotFound))
    else if id >= |e.requests| then Some(Refuse(e, RequestNotFound))
    else
      var failure := PendingFailure(e.requests[id], c.pending);
      var overdue := PendingFailure(e.requests[id], c.recheck);
      var ineligible := EligibilityFailure(e.host, e.terms, e.requests[id].user, a, c.account);
      var closed := JoinableFailure(StatusOf(e), e.terms, c.joinable);
      if failure.Some? then Some(Refuse(Expire(e, id, c.pending), failure.value))
      else if overdue.Some? then Some(Refuse(Expire(e, id, c.recheck), overdue.value))
      else if ineligible.Some? then Some(Refuse(e, ineligible.value))
      else if closed.Some? then Some(Refuse(e, closed.value))
      else None
  }

  function ApproveRequest(e: Event, actor: UserId, id: nat, a: Account, c: Clock): Answer
  {
    var gate := DecisionGate(e, actor, id, a, c);
    if gate.Some? then gate.value
    else if !Fits(e, e.requests[id].guests) then Refuse(e, OverrideRequired)
    else Accept(Admit(e, id, Some(actor), c.approval, None), RequestId(id))
  }

  function ApproveWithOverride(e: Event, actor: UserId, id: nat, a: Account, c: Clock): Answer
  {
    var gate := DecisionGate(e, actor, id, a, c);
    if gate.Some? then gate.value else SeatOrRefuse(e, id, actor, c.approval)
  }

  /** Seats the party, with exactly the capacity it needs when it does not fit. */
  function SeatOrRefuse(e: Event, id: nat, actor: UserId, at: int): Answer
    requires id < |e.requests|
  {
    var required := Reserved(e) + 1 + e.requests[id].guests;
    if Fits(e, e.requests[id].guests) then Accept(Admit(e, id, Some(actor), at, None), RequestId(id))
    else if required > CAPACITY_LIMIT then Refuse(e, OverrideLimitExceeded)
    else Accept(Admit(e, id, Some(actor), at, Some(Expansion(e.capacityMax, required))), RequestId(id))
  }

  function EndParticipation(e: Event, user: UserId, actor: UserId, reason: Reason, at: int): Answer
  {
    var row := NewestRow(e.participants, user);
    if row.None? then Refuse(e, NotAMember)
    else
      var p := e.participants[row.value];
      if p.departure.Some? then Accept(e, Left(p.departure.value))
      else
        var d := Departure(at, actor, reason);
        Accept(e.(participants := e.participants[row.value := p.(departure := Some(d))]), Left(d))
  }

  function LeaveEvent(e: Event, user: UserId, c: Clock): Answer
  {
    var closed := WindowFailure(StatusOf(e), e.terms, c.joinable);
    if e.host.manager == Some(user) then Refuse(e, HostCannotLeave)
    else if closed.Some? then Refuse(e, closed.value)
    else EndParticipation(e, user, user, VoluntaryLeave, c.stamp)
  }

  function RemoveParticipant(e: Event, actor: UserId, user: UserId, c: Clock): Answer
  {
    var closed := WindowFailure(StatusOf(e), e.terms, c.joinable);
    if e.host.manager != Some(actor) then Refuse(e, EventNotFound)
    else if user == actor then Refuse(e, HostCannotRemoveSelf)
    else if closed.Some? then Refuse(e, closed.value)
    else EndParticipation(e, user, actor, HostRemoval, c.stamp)
  }

  predicate CapacityValid(capacityMax: int, hostGuests: int)
  {
    1 <= capacityMax <= CAPACITY_LIMIT && 0 <= hostGuests <= GUEST_LIMIT && 1 + hostGuests <= capacityMax
  }

  /**
   * What the services find out about the fields that are not modelled: whether the
   * submitted field names are allowed, the category row and whether it is active,
   * and whether texts, money, times and the meeting point are valid.
   */
  datatype Checks = Checks(body: bool, category: Option<bool>, rest: bool)

  /** A user's new draft. */
  function NewDraft(owner: UserId, terms: Terms, capacityMax: int, hostGuests: int, checks: Checks): Result<Event, EventError>
  {
    if !checks.body || !CapacityValid(capacityMax, hostGuests) || !checks.rest then Err(InvalidInput)
    else if checks.category.None? then Err(CategoryNotFound)
    else Ok(Event(Host(Some(owner), true), Preparing, None, terms, hostGuests, capacityMax, None, [], []))
  }

  /** The stored event after the caller's fields were merged into it. */
  function UpdateDraft(e: Event, actor: UserId, terms: Terms, capacityMax: int, hostGuests: int, checks: Checks): Answer
  {
    if !checks.body then Refuse(e, InvalidInput)
    else if e.host.manager != Some(actor) then Refuse(e, EventNotFound)
    else if StatusOf(e) != Draft then Refuse(e, DraftRequired)
    else if checks.category.None? then Refuse(e, CategoryNotFound)
    else if !checks.rest || !CapacityValid(capacityMax, hostGuests) || (!e.host.userHosted && hostGuests != 0) then
      Refuse(e, InvalidInput)
    else Accept(e.(terms := terms, capacityMax := capacityMax, hostGuests := hostGuests), Done)
  }

  function Publish(e: Event, actor: UserId, checks: Checks, now: int): Answer
  {
    if e.host.manager != Some(actor) then Refuse(e, EventNotFound)
    else if StatusOf(e) != Draft then Refuse(e, PublishNotAllowed)
    else if checks.category.None? then Refuse(e, CategoryNotFound)
    else if !checks.category.value then Refuse(e, InactiveCategory)
    else if !checks.rest then Refuse(e, InvalidInput)
    else if e.terms.startsAt <= now then Refuse(e, AlreadyStarted)
    else Accept(e.(phase := Open, published := Some(e.capacityMax)), Done)
  }

  function CancelEvent(e: Event, actor: UserId, now: int): Answer
  {
    if e.host.manager != Some(actor) then Refuse(e, EventNotFound)
    else if !CanTransition(StatusOf(e), Cancelled) then Refuse(e, CancelNotAllowed)
    else Accept(e.(phase := CalledOff, cancelledAt := Some(now)), Done)
  }

  /** Start and completion; the database allows them, no service performs them. */
  function Progress(e: Event, target: Status): Event
  {
    if target in {InProgress, Completed} && CanTransition(StatusOf(e), target) then e.(phase := PhaseOf(target)) else e
  }

  datatype Step =
    | DoCreate(user: UserId, account: Account, guests: int, clock: Clock)
    | DoCancelRequest(user: UserId, id: nat, clock: Clock)
    | DoReject(actor: UserId, id: nat, clock: Clock)
    | DoApprove(actor: UserId, id: nat, account: Account, clock: Clock)
    | DoOverride(actor: UserId, id: nat, account: Account, clock: Clock)
    | DoLeave(user: UserId, clock: Clock)
    | DoRemove(actor: UserId, user: UserId, clock: Clock)
    | DoUpdate(actor: UserId, terms: Terms, capacityMax: int, hostGuests: int, checks: Checks)
    | DoPublish(actor: UserId, checks: Checks, now: int)
    | DoCancelEvent(actor: UserId, now: int)
    | DoProgress(target: Status)

  function Perform(e: Event, s: Step): Answer
  {
    match s
    case DoCreate(user, account, guests, clock) => CreateRequest(e, user, account, guests, clock)
    case DoCancelRequest(user, id, clock) => CancelRequest(e, user, id, clock)
    case DoReject(actor, id, clock) => RejectRequest(e, actor, id, clock)
    case DoApprove(actor, id, account, clock) => ApproveRequest(e, actor, id, account, clock)
    case DoOverride(actor, id, account, clock) => ApproveWithOverride(e, actor, id, account, clock)
    case DoLeave(user, clock) => LeaveEvent(e, user, clock)
    case DoRemove(actor, user, clock) => RemoveParticipant(e, actor, user, clock)
    case DoUpdate(actor, terms, capacityMax, hostGuests, checks) =>
      UpdateDraft(e, actor, terms, capacityMax, hostGuests, checks)
    case DoPublish(actor, checks, now) => Publish(e, actor, checks, now)
    case DoCancelEvent(actor, now) => CancelEvent(e, actor, now)
    case DoProgress(target) => Accept(Progress(e, target), Done)
  }

  function Run(e: Event, steps: seq<Step>): Event
    decreases |steps|
  {
    if |steps| == 0 then e else Run(Perform(e, steps[0]).event, steps[1..])
  }

  /** A new draft: a user's own event, or the session of a provider. */
  predicate Initial(e: Event)
  {
    && e.phase == Preparing && e.cancelledAt.None? && e.published.None? && e.requests == [] && e.participants == []
    && CapacityValid(e.capacityMax, e.hostGuests)
    && (if e.host.userHosted then e.host.manager.Some? else e.hostGuests == 0)
  }
}
