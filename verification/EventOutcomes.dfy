/**
 * The answer of every command, spelled out over the stored fields: who is let in,
 * who may decide, withdraw, leave or remove, and which refusal comes first. Nothing
 * here is stated through the checks that the commands themselves call.
 */
module EventOutcomes {
  import opened Common
  import opened EventRules
  import opened EventLaws

  // ---------- facts about accounts and people ----------

  /** A suspension that has begun, was not lifted and has not ended. */
  predicate Begun(x: Suspension, now: int) {
    x.startsAt <= now && !x.lifted && (x.endsAt.None? || now < x.endsAt.value)
  }

  /** Gone or inactive, or under a suspension. */
  predicate Barred(a: Account, now: int) {
    !a.available || exists i :: 0 <= i < |a.suspensions| && Begun(a.suspensions[i], now)
  }

  predicate Trusted(a: Account, terms: Terms) { a.trust.Some? && terms.minTrust <= a.trust.value }

  predicate TakesPart(e: Event, user: UserId) {
    exists k :: 0 <= k < |e.participants| && e.participants[k].user == user && e.participants[k].departure.None?
  }

  /** A request of the user that is PENDING and not yet overdue. */
  predicate Waits(e: Event, user: UserId, now: int) {
    exists i :: 0 <= i < |e.requests| && e.requests[i].user == user && e.requests[i].status == Pending
                && now < e.requests[i].expiresAt
  }

  /** Related users see every published event, everyone else the PUBLIC ones. */
  predicate Sees(e: Event, user: UserId, now: int) {
    || e.host.manager == Some(user)
    || (e.phase != Preparing && (e.terms.visibility == Public || TakesPart(e, user) || Waits(e, user, now)))
  }

  lemma EligibilityIs(e: Event, user: UserId, a: Account, now: int)
    ensures EligibilityFailure(e.host, e.terms, user, a, now) ==
            if e.host.manager == Some(user) then Some(SelfJoin)
            else if Barred(a, now) then Some(AccountUnavailable)
            else if !Trusted(a, e.terms) then Some(TrustRequired)
            else None
  {
    forall i | 0 <= i < |a.suspensions| ensures InForce(a.suspensions[i], now) <==> Begun(a.suspensions[i], now) {}
  }

  lemma VisibilityIs(e: Event, user: UserId, now: int)
    ensures VisibleToRequester(e.host, StatusOf(e), e.terms, e.requests, e.participants, user, now) <==> Sees(e, user, now)
  {
    forall i | 0 <= i < |e.requests|
      ensures LivePending(e.requests[i], user, now) <==>
                e.requests[i].user == user && e.requests[i].status == Pending && now < e.requests[i].expiresAt
    {}
  }

  lemma WaitingIs(e: Event, user: UserId, now: int)
    requires PendingIsNewest(e.requests)
    ensures var live := PendingOf(e.requests, user);
            Waits(e, user, now) <==> live.Some? && !Due(e.requests[live.value], now)
  {
    var live := PendingOf(e.requests, user);
    if i :| 0 <= i < |e.requests| && e.requests[i].user == user && e.requests[i].status == Pending && now < e.requests[i].expiresAt {
      assert live.Some?;
      assert !(i < live.value) && !(live.value < i);
    }
  }

  // ---------- asking to join ----------

  /** What follows once the event is found and no request of the user waits. */
  function JoinAnswer(e: Event, user: UserId, a: Account, c: Clock): Result<Reply, EventError> {
    if e.host.manager == Some(user) then Err(SelfJoin)
    else if Barred(a, c.account) then Err(AccountUnavailable)
    else if !Trusted(a, e.terms) then Err(TrustRequired)
    else if e.phase != Open || e.terms.startsAt <= c.joinable then Err(NotJoinable)
    else if e.terms.depositMinor > 0 then Err(PaidJoinNotAvailable)
    else if TakesPart(e, user) then Err(AlreadyJoined)
    else Ok(RequestId(|e.requests|))
  }

  lemma SubmitAnswers(e: Event, user: UserId, a: Account, guests: nat, c: Clock)
    ensures SubmitIfAllowed(e, user, a, guests, c).outcome == JoinAnswer(e, user, a, c)
  {
    EligibilityIs(e, user, a, c.account);
  }

  /** The answer to a request to join, for every event, account, party size and clock. */
  lemma JoinOutcome(e: Event, user: UserId, a: Account, guests: int, c: Clock)
    requires Inv(e)
    ensures CreateRequest(e, user, a, guests, c).outcome ==
            if guests < 0 || guests > 9999 then Err(InvalidInput)
            else if e.host.manager.None? || !Sees(e, user, c.visibility) then Err(EventNotFound)
            else if Waits(e, user, c.pending) then Err(RequestAlreadyExists)
            else JoinAnswer(e, user, a, c)
  {
    VisibilityIs(e, user, c.visibility);
    WaitingIs(e, user, c.pending);
    if 0 <= guests <= 9999 {
      var e1 := Cleared(e, user, c.pending);
      SubmitAnswers(e1, user, a, guests, c);
      SameForOthers(e, e1, user, a, c);
    }
  }

  lemma SameForOthers(e: Event, e1: Event, user: UserId, a: Account, c: Clock)
    requires e1 == e.(requests := e1.requests) && |e1.requests| == |e.requests|
    ensures JoinAnswer(e1, user, a, c) == JoinAnswer(e, user, a, c)
  {
  }

  /** Nobody whose account is barred or not trusted enough gets in, and nobody else is told that the account is unavailable. */
  lemma OnlyUsableAccountsJoin(e: Event, user: UserId, a: Account, guests: int, c: Clock)
    requires Inv(e)
    ensures var outcome := CreateRequest(e, user, a, guests, c).outcome;
            && (outcome.Ok? ==> !Barred(a, c.account) && Trusted(a, e.terms) && e.host.manager != Some(user))
            && (outcome == Err(AccountUnavailable) <==>
                  && 0 <= guests <= 9999 && e.host.manager.Some? && e.host.manager != Some(user)
                  && Sees(e, user, c.visibility) && !Waits(e, user, c.pending) && Barred(a, c.account))
  {
    JoinOutcome(e, user, a, guests, c);
  }

  /** A request is stored with the moment it was made, for 24 hours. */
  lemma RequestLastsADay(e: Event, user: UserId, a: Account, guests: nat, c: Clock)
    requires Inv(e) && CreateRequest(e, user, a, guests, c).outcome.Ok?
    ensures var e1, n := CreateRequest(e, user, a, guests, c).event, |e.requests|;
            && |e1.requests| == n + 1
            && e1.requests[n].requestedAt == c.stamp && e1.requests[n].expiresAt == c.stamp + 86_400_000
            && (e1.requests[n].status == Pending ==> e1.participants == e.participants)
            && (e1.requests[n].status == Approved ==>
                  && e1.requests[n].closedAt == Some(c.approval) && e1.requests[n].decidedBy.None?
                  && e1.participants == e.participants + [Participant(user, n, guests, None)])
  {
    CreateCases(e, user, a, guests, c);
    SubmitCases(Cleared(e, user, c.pending), user, a, guests, c);
  }

  // ---------- deciding on a request ----------

  /** The first check of every command on a request: it must be there and undecided, and not overdue at `now`. */
  function PendingAnswer(e: Event, id: nat, now: int): Option<EventError> {
    if id >= |e.requests| then Some(RequestNotFound)
    else
      match e.requests[id].status
      case Expired => Some(RequestExpired)
      case Pending => if e.requests[id].expiresAt <= now then Some(RequestExpired) else None
      case _ => Some(RequestNotPending)
  }

  /** What stands before both kinds of approval. */
  function ApprovalAnswer(e: Event, actor: UserId, id: nat, a: Account, c: Clock): Option<EventError> {
    if e.host.manager != Some(actor) then Some(EventNotFound)
    else if PendingAnswer(e, id, c.pending).Some? then PendingAnswer(e, id, c.pending)
    else if PendingAnswer(e, id, c.recheck).Some? then PendingAnswer(e, id, c.recheck)
    else if Barred(a, c.account) then Some(AccountUnavailable)
    else if !Trusted(a, e.terms) then Some(TrustRequired)
    else if e.phase != Open || e.terms.startsAt <= c.joinable then Some(NotJoinable)
    else if e.terms.depositMinor > 0 then Some(PaidJoinNotAvailable)
    else None
  }

  lemma GateAnswers(e: Event, actor: UserId, id: nat, a: Account, c: Clock)
    requires Inv(e)
    ensures var gate := DecisionGate(e, actor, id, a, c);
            if gate.Some? then ApprovalAnswer(e, actor, id, a, c).Some?
                               && gate.value.outcome == Err(ApprovalAnswer(e, actor, id, a, c).value)
            else ApprovalAnswer(e, actor, id, a, c).None?
  {
    if id < |e.requests| { EligibilityIs(e, e.requests[id].user, a, c.account); }
  }

  /** The answers to both kinds of approval; they differ only in what happens to a party that does not fit. */
  lemma ApprovalOutcome(e: Event, actor: UserId, id: nat, a: Account, c: Clock)
    requires Inv(e)
    ensures var failure := ApprovalAnswer(e, actor, id, a, c);
            var plain, forced := ApproveRequest(e, actor, id, a, c).outcome, ApproveWithOverride(e, actor, id, a, c).outcome;
            if failure.Some? then plain == Err(failure.value) && forced == Err(failure.value)
            else
              && id < |e.requests|
              && var needed := Reserved(e) + 1 + e.requests[id].guests;
              && plain == (if needed <= e.capacityMax then Ok(RequestId(id)) else Err(OverrideRequired))
              && forced == (if needed <= e.capacityMax || needed <= 10_000 then Ok(RequestId(id)) else Err(OverrideLimitExceeded))
  {
    GateAnswers(e, actor, id, a, c);
  }

  /** Approval, plain or forced, is for usable accounts only, by the manager only. */
  lemma OnlyUsableAccountsAreApproved(e: Event, actor: UserId, id: nat, a: Account, c: Clock)
    requires Inv(e)
    requires ApproveRequest(e, actor, id, a, c).outcome.Ok? || ApproveWithOverride(e, actor, id, a, c).outcome.Ok?
    ensures e.host.manager == Some(actor) && !Barred(a, c.account) && Trusted(a, e.terms)
    ensures id < |e.requests| && e.requests[id].status == Pending
            && c.pending < e.requests[id].expiresAt && c.recheck < e.requests[id].expiresAt
  {
    ApprovalOutcome(e, actor, id, a, c);
  }

  /** What an approval stores: the decision with its time and decider, and the membership row of the party. */
  lemma ApprovalStores(e: Event, actor: UserId, id: nat, a: Account, c: Clock, forced: bool)
    requires Inv(e)
    requires (if forced then ApproveWithOverride(e, actor, id, a, c) else ApproveRequest(e, actor, id, a, c)).outcome.Ok?
    ensures id < |e.requests|
    ensures var e1 := (if forced then ApproveWithOverride(e, actor, id, a, c) else ApproveRequest(e, actor, id, a, c)).event;
            && |e1.requests| == |e.requests|
            && (forall i :: 0 <= i < |e.requests| && i != id ==> e1.requests[i] == e.requests[i])
            && e1.requests[id].status == Approved
            && e1.requests[id].closedAt == Some(c.approval) && e1.requests[id].decidedBy == Some(actor)
            && e1.participants == e.participants + [Participant(e.requests[id].user, id, e.requests[id].guests, None)]
            && e1.phase == e.phase && e1.terms == e.terms && e1.host == e.host && e1.hostGuests == e.hostGuests
  {
    GateKeepsInv(e, actor, id, a, c);
    ApprovalCases(e, actor, id, a, c);
    OverrideGates(e, actor, id, a, c);
  }

  /** `e1` is `e` with request `id` closed by `decider` at `at`, and nothing else changed. */
  predicate ClosedAs(e: Event, e1: Event, id: nat, status: RequestStatus, decider: Option<UserId>, at: int) {
    && |e1.requests| == |e.requests| && id < |e.requests|
    && (forall i :: 0 <= i < |e.requests| && i != id ==> e1.requests[i] == e.requests[i])
    && e1.requests[id] == e.requests[id].(status := status, decidedBy := decider, closedAt := Some(at))
    && e1 == e.(requests := e1.requests)
  }

  /** Withdrawal is the requester's alone, and the request then ends WITHDRAWN. */
  lemma WithdrawalOutcome(e: Event, user: UserId, id: nat, c: Clock)
    ensures var answer := CancelRequest(e, user, id, c);
            var failure := if id < |e.requests| && e.requests[id].user != user then Some(RequestNotFound)
                           else PendingAnswer(e, id, c.pending);
            if failure.Some? then answer.outcome == Err(failure.value)
            else answer.outcome == Ok(RequestId(id)) && ClosedAs(e, answer.event, id, Withdrawn, None, c.stamp)
  {
  }

  /** Rejection is the manager's alone, and the request then ends REJECTED. */
  lemma RejectionOutcome(e: Event, actor: UserId, id: nat, c: Clock)
    ensures var answer := RejectRequest(e, actor, id, c);
            var failure := if e.host.manager != Some(actor) then Some(EventNotFound) else PendingAnswer(e, id, c.pending);
            if failure.Some? then answer.outcome == Err(failure.value)
            else answer.outcome == Ok(RequestId(id)) && ClosedAs(e, answer.event, id, Rejected, Some(actor), c.stamp)
  {
  }

  /** Whoever is told that a request has expired finds it stored as EXPIRED from then on. */
  lemma ExpiredIsStored(e: Event, s: Step, id: nat)
    requires (s.DoCancelRequest? || s.DoReject? || s.DoApprove? || s.DoOverride?) && s.id == id
    requires Perform(e, s).outcome == Err(RequestExpired)
    ensures id < |Perform(e, s).event.requests| && Perform(e, s).event.requests[id].status == Expired
  {
  }

  // ---------- leaving and removing ----------

  /** The user's newest membership row, if there is one. */
  predicate IsNewestRow(e: Event, user: UserId, k: nat) {
    k < |e.participants| && e.participants[k].user == user && forall j :: k < j < |e.participants| ==> e.participants[j].user != user
  }

  predicate WindowOpen(e: Event, now: int) { e.phase == Open && now < e.terms.startsAt }

  /** `answer` ends the newest row of the user: the departure is recorded, or the first one returned. */
  ghost predicate EndsRow(e: Event, answer: Answer, user: UserId, d: Departure) {
    if (forall k :: 0 <= k < |e.participants| ==> e.participants[k].user != user)
    then answer == Answer(e, Err(NotAMember))
    else exists k: nat :: IsNewestRow(e, user, k) && RowEnded(e, answer, k, d)
  }

  predicate RowEnded(e: Event, answer: Answer, k: nat, d: Departure)
    requires k < |e.participants|
  {
    if e.participants[k].departure.Some? then answer == Answer(e, Ok(Left(e.participants[k].departure.value)))
    else
      && answer.outcome == Ok(Left(d))
      && answer.event == e.(participants := e.participants[k := e.participants[k].(departure := Some(d))])
  }

  lemma EndEndsRow(e: Event, user: UserId, actor: UserId, reason: Reason, at: int)
    ensures EndsRow(e, EndParticipation(e, user, actor, reason, at), user, Departure(at, actor, reason))
  {
    var row := NewestRow(e.participants, user);
    if row.Some? {
      assert IsNewestRow(e, user, row.value);
      assert RowEnded(e, EndParticipation(e, user, actor, reason, at), row.value, Departure(at, actor, reason));
    }
  }

  /** Leaving is for members, before the start; the host has no membership to leave. */
  lemma LeaveOutcome(e: Event, user: UserId, c: Clock)
    ensures var answer := LeaveEvent(e, user, c);
            if e.host.manager == Some(user) then answer == Answer(e, Err(HostCannotLeave))
            else if !WindowOpen(e, c.joinable) then answer == Answer(e, Err(MembershipLocked))
            else EndsRow(e, answer, user, Departure(c.stamp, user, VoluntaryLeave))
  {
    EndEndsRow(e, user, user, VoluntaryLeave, c.stamp);
  }

  /** Removal is for the manager, before the start, and never of the manager. */
  lemma RemoveOutcome(e: Event, actor: UserId, user: UserId, c: Clock)
    ensures var answer := RemoveParticipant(e, actor, user, c);
            if e.host.manager != Some(actor) then answer == Answer(e, Err(EventNotFound))
            else if user == actor then answer == Answer(e, Err(HostCannotRemoveSelf))
            else if !WindowOpen(e, c.joinable) then answer == Answer(e, Err(MembershipLocked))
            else EndsRow(e, answer, user, Departure(c.stamp, actor, HostRemoval))
  {
    EndEndsRow(e, user, actor, HostRemoval, c.stamp);
  }

  // ---------- the event itself ----------

  /** Capacity and host party of a draft that may be stored. */
  predicate Sound(capacityMax: int, hostGuests: int) {
    0 <= hostGuests < capacityMax <= 10_000
  }

  lemma DraftOutcome(owner: UserId, terms: Terms, capacityMax: int, hostGuests: int, checks: Checks)
    ensures var draft := NewDraft(owner, terms, capacityMax, hostGuests, checks);
            && (draft.Ok? <==> checks.body && checks.rest && Sound(capacityMax, hostGuests) && checks.category.Some?)
            && (draft == Err(CategoryNotFound) <==>
                  checks.body && checks.rest && Sound(capacityMax, hostGuests) && checks.category.None?)
            && (draft.Ok? ==>
                  var e := draft.value;
                  && e.host == Host(Some(owner), true) && e.terms == terms
                  && e.capacityMax == capacityMax && e.hostGuests == hostGuests
                  && Inv(e) && StatusOf(e) == Draft && Reserved(e) == 1 + hostGuests)
  {
  }

  /** Only the manager changes a draft, only while it is one, and only to valid settings. */
  lemma UpdateOutcome(e: Event, actor: UserId, terms: Terms, capacityMax: int, hostGuests: int, checks: Checks)
    ensures var answer := UpdateDraft(e, actor, terms, capacityMax, hostGuests, checks);
            && (answer.outcome.Ok? <==>
                  && checks.body && e.host.manager == Some(actor) && e.phase == Preparing && checks.category.Some? && checks.rest
                  && Sound(capacityMax, hostGuests) && (e.host.userHosted || hostGuests == 0))
            && (answer.outcome.Ok? ==>
                  answer.event == e.(terms := terms, capacityMax := capacityMax, hostGuests := hostGuests))
            && (answer.outcome.Err? ==> answer.event == e)
  {
  }

  /**
   * Only the manager publishes, once, with an active category and before the start;
   * a host party that fills the event makes it FULL.
   */
  lemma PublishOutcome(e: Event, actor: UserId, checks: Checks, now: int)
    requires Inv(e)
    ensures var answer := Publish(e, actor, checks, now);
            && (answer.outcome.Ok? <==>
                  && e.host.manager == Some(actor) && e.phase == Preparing && checks.category == Some(true) && checks.rest
                  && now < e.terms.startsAt)
            && (answer.outcome.Ok? ==>
                  && answer.event == e.(phase := Open, published := Some(e.capacityMax))
                  && StatusOf(answer.event) == (if e.host.userHosted && 1 + e.hostGuests == e.capacityMax then Full else Active))
            && (answer.outcome.Err? ==> answer.event == e)
  {
    if Publish(e, actor, checks, now).outcome.Ok? { assert e.participants == [] && PartySeats(e.participants) == 0; }
  }

  /** Start and completion: an open event may start, a started one may end, and nothing else happens. */
  lemma ProgressOutcome(e: Event, target: Status)
    ensures Progress(e, target) ==
            if e.phase == Open && target == InProgress then e.(phase := Underway)
            else if e.phase == Underway && target == Completed then e.(phase := Finished)
            else e
  {
  }

  /** Only the manager cancels, and anything but a finished or cancelled event. */
  lemma CancellationOutcome(e: Event, actor: UserId, now: int)
    ensures var answer := CancelEvent(e, actor, now);
            && (answer.outcome.Ok? <==> e.host.manager == Some(actor) && e.phase != Finished && e.phase != CalledOff)
            && (answer.outcome.Ok? ==> answer.event == e.(phase := CalledOff, cancelledAt := Some(now)))
            && (answer.outcome.Err? ==> answer.event == e)
  {
  }
}
