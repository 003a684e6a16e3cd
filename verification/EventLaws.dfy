/**
 * What every command keeps, over single commands and over whole runs: the
 * invariant, the history of requests and membership rows, the capacity ledger,
 * and what a refused command may still have written.
 */
module EventLaws {
  import opened Common
  import opened EventRules

  // ---------- closing a request ----------

  lemma {:induction false} ClosingKeepsRows(rs: seq<Request>, ps: seq<Participant>, id: nat, r: Request)
    requires RowsMatchApprovals(rs, ps) && id < |rs| && rs[id].status != Approved && r.status != Approved
    ensures RowsMatchApprovals(rs[id := r], ps)
  {
    forall k | 0 <= k < |ps| ensures FromApproval(rs[id := r], ps[k]) { assert FromApproval(rs, ps[k]); }
  }

  lemma ClosingKeepsPending(rs: seq<Request>, ps: seq<Participant>, id: nat, r: Request)
    requires PendingIsNewest(rs) && PendingIsNoMember(rs, ps)
    requires id < |rs| && r.status != Pending && r.user == rs[id].user
    ensures PendingIsNewest(rs[id := r]) && PendingIsNoMember(rs[id := r], ps)
  {}

  lemma ClosingKeepsOthers(host: Host, rs: seq<Request>, ps: seq<Participant>, id: nat, r: Request)
    requires RequestsOk(rs) && HostStaysOut(host, rs, ps) && id < |rs| && r.user == rs[id].user && RequestOk(r)
    ensures RequestsOk(rs[id := r]) && HostStaysOut(host, rs[id := r], ps)
  {}

  /** What concerns people, apart from the new membership row, after a request was decided. */
  lemma ClosingKeepsPeople(e: Event, id: nat, r: Request)
    requires PeopleInv(e) && id < |e.requests| && e.requests[id].status == Pending
    requires r.status !in {Pending, Approved} && r.user == e.requests[id].user && RequestOk(r)
    ensures PeopleInv(e.(requests := e.requests[id := r]))
  {
    ClosingKeepsRows(e.requests, e.participants, id, r);
    ClosingKeepsPending(e.requests, e.participants, id, r);
    ClosingKeepsOthers(e.host, e.requests, e.participants, id, r);
  }

  lemma {:induction false} CloseKeepsInv(e: Event, id: nat, status: RequestStatus, decider: Option<UserId>, at: int)
    requires Inv(e) && id < |e.requests| && e.requests[id].status == Pending
    requires status in {Rejected, Expired, Withdrawn}
    ensures Inv(Close(e, id, status, decider, at))
    ensures Reserved(Close(e, id, status, decider, at)) == Reserved(e)
  {
    var r := Closed(e.requests[id], status, decider, at);
    assert RequestOk(e.requests[id]);
    AddedUpdate(e.requests, id, r);
    ClosingKeepsPeople(e, id, r);
  }

  lemma {:induction false} ExpireKeepsInv(e: Event, id: nat, now: int)
    requires Inv(e) && id < |e.requests|
    ensures Inv(Expire(e, id, now)) && Reserved(Expire(e, id, now)) == Reserved(e)
  {
    if Due(e.requests[id], now) {
      CloseKeepsInv(e, id, Expired, None, now);
    }
  }

  // ---------- a new request ----------

  /** The state right after the INSERT of a new request. */
  function WithRequest(e: Event, user: UserId, guests: nat, now: int): Event
  {
    e.(requests := e.requests + [NewRequest(e, user, guests, now)])
  }

  lemma {:induction false} AskingKeepsRows(rs: seq<Request>, ps: seq<Participant>, r: Request)
    requires RowsMatchApprovals(rs, ps) && r.status == Pending
    ensures RowsMatchApprovals(rs + [r], ps)
  {
    forall k | 0 <= k < |ps| ensures FromApproval(rs + [r], ps[k]) { assert FromApproval(rs, ps[k]); }
  }

  lemma AskingKeepsPending(rs: seq<Request>, ps: seq<Participant>, r: Request)
    requires PendingIsNewest(rs) && PendingIsNoMember(rs, ps)
    requires PendingOf(rs, r.user).None? && !IsMember(ps, r.user)
    ensures PendingIsNewest(rs + [r]) && PendingIsNoMember(rs + [r], ps)
  {}

  lemma AskingKeepsOthers(host: Host, rs: seq<Request>, ps: seq<Participant>, r: Request)
    requires RequestsOk(rs) && HostStaysOut(host, rs, ps) && host.manager != Some(r.user) && RequestOk(r)
    ensures RequestsOk(rs + [r]) && HostStaysOut(host, rs + [r], ps)
  {}

  lemma {:induction false} SubmitKeepsInv(e: Event, user: UserId, guests: nat, now: int)
    requires Inv(e) && e.published.Some? && e.host.manager.Some? && guests <= GUEST_LIMIT
    requires e.host.manager != Some(user)
    requires PendingOf(e.requests, user).None? && !IsMember(e.participants, user)
    ensures Inv(WithRequest(e, user, guests, now)) && Reserved(WithRequest(e, user, guests, now)) == Reserved(e)
  {
    var r := NewRequest(e, user, guests, now);
    AddedAppend(e.requests, r);
    AskingKeepsRows(e.requests, e.participants, r);
    AskingKeepsPending(e.requests, e.participants, r);
    AskingKeepsOthers(e.host, e.requests, e.participants, r);
  }

  // ---------- an approval ----------

  /** The override that approval of a request needs: none when the party fits. */
  function ExpansionFor(e: Event, id: nat): Option<Expansion>
    requires id < |e.requests|
  {
    var guests := e.requests[id].guests;
    if Fits(e, guests) then None else Some(Expansion(e.capacityMax, Reserved(e) + 1 + guests))
  }

  ghost predicate MayAdmit(e: Event, id: nat, expansion: Option<Expansion>)
    requires id < |e.requests|
  {
    && e.requests[id].status == Pending && e.published.Some? && e.host.manager != Some(e.requests[id].user)
    && expansion == ExpansionFor(e, id)
    && (expansion.Some? ==> expansion.value.after <= CAPACITY_LIMIT)
  }

  lemma {:induction false} AdmitSeats(e: Event, id: nat, decider: Option<UserId>, at: int, expansion: Option<Expansion>)
    requires id < |e.requests|
    ensures Reserved(Admit(e, id, decider, at, expansion)) == Reserved(e) + 1 + e.requests[id].guests
  {
    PartySeatsAppend(e.participants, Participant(e.requests[id].user, id, e.requests[id].guests, None));
  }

  lemma {:induction false} AdmitKeepsSeats(e: Event, id: nat, decider: Option<UserId>, at: int, expansion: Option<Expansion>)
    requires SeatsInv(e) && id < |e.requests| && e.requests[id].expansion.None?
    requires expansion == ExpansionFor(e, id) && (expansion.Some? ==> expansion.value.after <= CAPACITY_LIMIT)
    ensures SeatsInv(Admit(e, id, decider, at, expansion))
  {
    AdmitSeats(e, id, decider, at, expansion);
    AddedUpdate(e.requests, id, Closed(e.requests[id], Approved, decider, at).(expansion := expansion));
  }

  lemma {:induction false} AdmitKeepsRows(rs: seq<Request>, ps: seq<Participant>, id: nat, r: Request, p: Participant)
    requires RowsMatchApprovals(rs, ps) && id < |rs| && rs[id].status == Pending
    requires r.status == Approved && p.request == id && p.user == r.user && p.guests == r.guests
    ensures RowsMatchApprovals(rs[id := r], ps + [p])
  {
    var rs1, ps1 := rs[id := r], ps + [p];
    forall k | 0 <= k < |ps1| ensures FromApproval(rs1, ps1[k]) {
      if k < |ps| { assert FromApproval(rs, ps[k]); }
    }
    forall i | 0 <= i < |rs1| && rs1[i].status == Approved ensures HasRow(ps1, i) {
      if i == id {
        assert ps1[|ps|].request == id;
      } else {
        assert HasRow(ps, i);
        var k :| 0 <= k < |ps| && ps[k].request == i;
        assert ps1[k].request == i;
      }
    }
    forall k | 0 <= k < |ps| ensures ps[k].request != id {
      assert FromApproval(rs, ps[k]);
    }
  }

  /** The decided request was its user's only pending one, so the new row is that user's newest and only active one. */
  lemma {:induction false} AdmitKeepsPending(rs: seq<Request>, ps: seq<Participant>, id: nat, r: Request, p: Participant)
    requires PendingIsNewest(rs) && PendingIsNoMember(rs, ps)
    requires id < |rs| && rs[id].status == Pending && r.status == Approved
    requires r.user == rs[id].user == p.user
    ensures PendingIsNewest(rs[id := r]) && PendingIsNoMember(rs[id := r], ps + [p])
  {
    var rs1, ps1 := rs[id := r], ps + [p];
    forall i, k | 0 <= i < |rs1| && 0 <= k < |ps1| && rs1[i].status == Pending && ps1[k].user == rs1[i].user
      ensures ps1[k].departure.Some?
    {
      assert i != id && rs[i].status == Pending;
    }
  }

  lemma AdmitKeepsActive(rs: seq<Request>, ps: seq<Participant>, id: nat, p: Participant)
    requires ActiveIsNewest(ps) && PendingIsNoMember(rs, ps)
    requires id < |rs| && rs[id].status == Pending && rs[id].user == p.user
    ensures ActiveIsNewest(ps + [p])
  {}

  lemma AdmitKeepsOthers(host: Host, rs: seq<Request>, ps: seq<Participant>, id: nat, r: Request, p: Participant)
    requires RequestsOk(rs) && HostStaysOut(host, rs, ps) && id < |rs| && r.user == rs[id].user == p.user && RequestOk(r)
    ensures RequestsOk(rs[id := r]) && HostStaysOut(host, rs[id := r], ps + [p])
  {}

  lemma {:induction false} AdmitKeepsInv(e: Event, id: nat, decider: Option<UserId>, at: int, expansion: Option<Expansion>)
    requires Inv(e) && id < |e.requests| && MayAdmit(e, id, expansion)
    ensures Inv(Admit(e, id, decider, at, expansion))
  {
    assert RequestOk(e.requests[id]);
    var rs, ps := e.requests, e.participants;
    var e1 := Admit(e, id, decider, at, expansion);
    var r, p := e1.requests[id], e1.participants[|ps|];
    AdmitKeepsSeats(e, id, decider, at, expansion);
    AdmitKeepsRows(rs, ps, id, r, p);
    AdmitKeepsPending(rs, ps, id, r, p);
    AdmitKeepsActive(rs, ps, id, p);
    AdmitKeepsOthers(e.host, rs, ps, id, r, p);
  }

  // ---------- a departure ----------

  /** The state after the row of a leaving or removed participant was cancelled. */
  function WithDeparture(e: Event, k: nat, d: Departure): Event
    requires k < |e.participants|
  {
    e.(participants := e.participants[k := e.participants[k].(departure := Some(d))])
  }

  lemma {:induction false} DepartKeepsRows(rs: seq<Request>, ps: seq<Participant>, k: nat, d: Departure)
    requires RowsMatchApprovals(rs, ps) && k < |ps|
    ensures RowsMatchApprovals(rs, ps[k := ps[k].(departure := Some(d))])
  {
    var ps1 := ps[k := ps[k].(departure := Some(d))];
    forall l | 0 <= l < |ps1| ensures FromApproval(rs, ps1[l]) { assert FromApproval(rs, ps[l]); }
    forall i | 0 <= i < |rs| && rs[i].status == Approved ensures HasRow(ps1, i) {
      assert HasRow(ps, i);
      var l :| 0 <= l < |ps| && ps[l].request == i;
      assert ps1[l].request == i;
    }
  }

  lemma DepartKeepsActive(rs: seq<Request>, ps: seq<Participant>, k: nat, d: Departure)
    requires ActiveIsNewest(ps) && PendingIsNoMember(rs, ps) && k < |ps|
    ensures ActiveIsNewest(ps[k := ps[k].(departure := Some(d))])
    ensures PendingIsNoMember(rs, ps[k := ps[k].(departure := Some(d))])
  {}

  lemma DepartKeepsOthers(host: Host, rs: seq<Request>, ps: seq<Participant>, k: nat, d: Departure)
    requires HostStaysOut(host, rs, ps) && k < |ps|
    ensures HostStaysOut(host, rs, ps[k := ps[k].(departure := Some(d))])
  {}

  lemma {:induction false} DepartSeats(e: Event, k: nat, d: Departure)
    requires k < |e.participants| && e.participants[k].departure.None?
    ensures Reserved(WithDeparture(e, k, d)) == Reserved(e) - (1 + e.participants[k].guests)
  {
    PartySeatsUpdate(e.participants, k, e.participants[k].(departure := Some(d)));
  }

  lemma {:induction false} DepartKeepsInv(e: Event, k: nat, d: Departure)
    requires Inv(e) && k < |e.participants| && e.participants[k].departure.None?
    ensures Inv(WithDeparture(e, k, d))
  {
    DepartSeats(e, k, d);
    DepartKeepsRows(e.requests, e.participants, k, d);
    DepartKeepsActive(e.requests, e.participants, k, d);
    DepartKeepsOthers(e.host, e.requests, e.participants, k, d);
  }

  // ---------- the invariant over commands and runs ----------

  /** Expiring the pending request of a user leaves that user without one. */
  lemma {:induction false} ExpiryClears(e: Event, user: UserId, now: int)
    requires Inv(e)
    ensures var live := PendingOf(e.requests, user);
            live.Some? && Due(e.requests[live.value], now) ==> PendingOf(Expire(e, live.value, now).requests, user).None?
  {
    var live := PendingOf(e.requests, user);
    if live.Some? && Due(e.requests[live.value], now) {
      assert forall i :: 0 <= i < |e.requests| && i != live.value && e.requests[i].user == user ==>
                           e.requests[i].status != Pending;
    }
  }

  lemma SubmitCases(e: Event, user: UserId, a: Account, guests: nat, c: Clock)
    ensures var answer := SubmitIfAllowed(e, user, a, guests, c);
            || (answer.event == e && answer.outcome.Err?)
            || (&& answer == SubmitRequest(e, user, guests, c)
                && e.host.manager != Some(user) && !IsMember(e.participants, user) && e.phase == Open)
  {}

  lemma {:induction false} SubmitKeepsAll(e: Event, user: UserId, a: Account, guests: nat, c: Clock)
    requires Inv(e) && e.host.manager.Some? && guests <= GUEST_LIMIT && PendingOf(e.requests, user).None?
    ensures Inv(SubmitIfAllowed(e, user, a, guests, c).event)
  {
    SubmitCases(e, user, a, guests, c);
    if SubmitIfAllowed(e, user, a, guests, c).outcome.Err? { return; }
    SubmitKeepsInv(e, user, guests, c.stamp);
    var e1 := WithRequest(e, user, guests, c.stamp);
    if !e.terms.approvalRequired && Fits(e, guests) {
      AdmitKeepsInv(e1, |e.requests|, None, c.approval, None);
    }
  }

  /** The event after an overdue pending request of the user, if there is one, was expired. */
  function Cleared(e: Event, user: UserId, now: int): Event
  {
    var live := PendingOf(e.requests, user);
    if live.Some? then Expire(e, live.value, now) else e
  }

  lemma ClearedKeepsInv(e: Event, user: UserId, now: int)
    requires Inv(e)
    ensures Inv(Cleared(e, user, now)) && Reserved(Cleared(e, user, now)) == Reserved(e)
  {
    var live := PendingOf(e.requests, user);
    if live.Some? { ExpireKeepsInv(e, live.value, now); }
  }

  /** A creation is refused at once, or goes on with the user's overdue request out of the way. */
  lemma CreateCases(e: Event, user: UserId, a: Account, guests: int, c: Clock)
    ensures var answer := CreateRequest(e, user, a, guests, c);
            || (answer.event == e && answer.outcome.Err?)
            || (&& 0 <= guests <= GUEST_LIMIT && e.host.manager.Some?
                && (PendingOf(e.requests, user).Some? ==> Due(e.requests[PendingOf(e.requests, user).value], c.pending))
                && answer == SubmitIfAllowed(Cleared(e, user, c.pending), user, a, guests, c))
  {}

  lemma {:induction false} CreateKeepsInv(e: Event, user: UserId, a: Account, guests: int, c: Clock)
    requires Inv(e)
    ensures Inv(CreateRequest(e, user, a, guests, c).event)
  {
    CreateCases(e, user, a, guests, c);
    if CreateRequest(e, user, a, guests, c).event != e {
      ClearedKeepsInv(e, user, c.pending);
      ExpiryClears(e, user, c.pending);
      SubmitKeepsAll(Cleared(e, user, c.pending), user, a, guests, c);
    }
  }

  lemma {:induction false} CancelRequestKeepsInv(e: Event, user: UserId, id: nat, c: Clock)
    requires Inv(e)
    ensures Inv(CancelRequest(e, user, id, c).event)
  {
    if id < |e.requests| {
      ExpireKeepsInv(e, id, c.pending);
      if e.requests[id].status == Pending { CloseKeepsInv(e, id, Withdrawn, None, c.stamp); }
    }
  }

  lemma {:induction false} RejectKeepsInv(e: Event, actor: UserId, id: nat, c: Clock)
    requires Inv(e)
    ensures Inv(RejectRequest(e, actor, id, c).event)
  {
    if id < |e.requests| {
      ExpireKeepsInv(e, id, c.pending);
      if e.requests[id].status == Pending { CloseKeepsInv(e, id, Rejected, Some(actor), c.stamp); }
    }
  }

  lemma {:induction false} GateKeepsInv(e: Event, actor: UserId, id: nat, a: Account, c: Clock)
    requires Inv(e)
    ensures var gate := DecisionGate(e, actor, id, a, c);
            (gate.Some? ==> Inv(gate.value.event))
            && (gate.None? ==> e.host.manager != Some(e.requests[id].user) && e.published.Some?)
  {
    if id < |e.requests| {
      ExpireKeepsInv(e, id, c.pending);
      ExpireKeepsInv(e, id, c.recheck);
    }
  }

  /** Past the gates the two approvals admit the party or refuse and change nothing. */
  lemma ApprovalCases(e: Event, actor: UserId, id: nat, a: Account, c: Clock)
    requires DecisionGate(e, actor, id, a, c).None?  ==> e.host.manager != Some(e.requests[id].user) && e.published.Some?
    ensures var gate := DecisionGate(e, actor, id, a, c);
            var plain, forced := ApproveRequest(e, actor, id, a, c), ApproveWithOverride(e, actor, id, a, c);
            if gate.Some? then plain == gate.value && forced == gate.value
            else
              && plain == (if Fits(e, e.requests[id].guests)
                           then Accept(Admit(e, id, Some(actor), c.approval, None), RequestId(id))
                           else Refuse(e, OverrideRequired))
              && forced == (if MayAdmit(e, id, ExpansionFor(e, id))
                            then Accept(Admit(e, id, Some(actor), c.approval, ExpansionFor(e, id)), RequestId(id))
                            else Refuse(e, OverrideLimitExceeded))
  {}

  lemma {:induction false} ApproveKeepsInv(e: Event, actor: UserId, id: nat, a: Account, c: Clock)
    requires Inv(e)
    ensures Inv(ApproveRequest(e, actor, id, a, c).event)
  {
    GateKeepsInv(e, actor, id, a, c);
    ApprovalCases(e, actor, id, a, c);
    if DecisionGate(e, actor, id, a, c).None? && Fits(e, e.requests[id].guests) {
      AdmitKeepsInv(e, id, Some(actor), c.approval, None);
    }
  }

  lemma {:induction false} OverrideKeepsInv(e: Event, actor: UserId, id: nat, a: Account, c: Clock)
    requires Inv(e)
    ensures Inv(ApproveWithOverride(e, actor, id, a, c).event)
  {
    GateKeepsInv(e, actor, id, a, c);
    ApprovalCases(e, actor, id, a, c);
    if DecisionGate(e, actor, id, a, c).None? && MayAdmit(e, id, ExpansionFor(e, id)) {
      AdmitKeepsInv(e, id, Some(actor), c.approval, ExpansionFor(e, id));
    }
  }

  lemma {:induction false} EndKeepsInv(e: Event, user: UserId, actor: UserId, reason: Reason, at: int)
    requires Inv(e)
    ensures Inv(EndParticipation(e, user, actor, reason, at).event)
  {
    var row := NewestRow(e.participants, user);
    if row.Some? && e.participants[row.value].departure.None? {
      DepartKeepsInv(e, row.value, Departure(at, actor, reason));
    }
  }

  lemma {:induction false} LeaveKeepsInv(e: Event, user: UserId, c: Clock)
    requires Inv(e)
    ensures Inv(LeaveEvent(e, user, c).event)
  {
    EndKeepsInv(e, user, user, VoluntaryLeave, c.stamp);
  }

  lemma {:induction false} RemoveKeepsInv(e: Event, actor: UserId, user: UserId, c: Clock)
    requires Inv(e)
    ensures Inv(RemoveParticipant(e, actor, user, c).event)
  {
    EndKeepsInv(e, user, actor, HostRemoval, c.stamp);
  }

  /** What concerns people survives any change of the event's own columns. */
  lemma {:induction false} ColumnsKeepPeople(e: Event, e1: Event)
    requires PeopleInv(e)
    requires e1.requests == e.requests && e1.participants == e.participants && e1.host == e.host
    ensures PeopleInv(e1)
  {}

  lemma {:induction false} UpdateKeepsInv(e: Event, actor: UserId, terms: Terms, capacityMax: int, hostGuests: int, checks: Checks)
    requires Inv(e)
    ensures Inv(UpdateDraft(e, actor, terms, capacityMax, hostGuests, checks).event)
  {
    ColumnsKeepPeople(e, UpdateDraft(e, actor, terms, capacityMax, hostGuests, checks).event);
  }

  lemma {:induction false} PublishKeepsInv(e: Event, actor: UserId, checks: Checks, now: int)
    requires Inv(e)
    ensures Inv(Publish(e, actor, checks, now).event)
  {
    ColumnsKeepPeople(e, Publish(e, actor, checks, now).event);
    assert e.phase == Preparing ==> Added(e.requests) == 0;
  }

  lemma {:induction false} CancelEventKeepsInv(e: Event, actor: UserId, now: int)
    requires Inv(e)
    ensures Inv(CancelEvent(e, actor, now).event)
  {
    ColumnsKeepPeople(e, CancelEvent(e, actor, now).event);
  }

  lemma {:induction false} ProgressKeepsInv(e: Event, target: Status)
    requires Inv(e)
    ensures Inv(Progress(e, target))
  {
    ColumnsKeepPeople(e, Progress(e, target));
  }

  lemma {:induction false} StepKeepsInv(e: Event, s: Step)
    requires Inv(e)
    ensures Inv(Perform(e, s).event)
  {
    match s
    case DoCreate(user, account, guests, clock) => CreateKeepsInv(e, user, account, guests, clock);
    case DoCancelRequest(user, id, clock) => CancelRequestKeepsInv(e, user, id, clock);
    case DoReject(actor, id, clock) => RejectKeepsInv(e, actor, id, clock);
    case DoApprove(actor, id, account, clock) => ApproveKeepsInv(e, actor, id, account, clock);
    case DoOverride(actor, id, account, clock) => OverrideKeepsInv(e, actor, id, account, clock);
    case DoLeave(user, clock) => LeaveKeepsInv(e, user, clock);
    case DoRemove(actor, user, clock) => RemoveKeepsInv(e, actor, user, clock);
    case DoUpdate(actor, terms, capacityMax, hostGuests, checks) =>
      UpdateKeepsInv(e, actor, terms, capacityMax, hostGuests, checks);
    case DoPublish(actor, checks, now) => PublishKeepsInv(e, actor, checks, now);
    case DoCancelEvent(actor, now) => CancelEventKeepsInv(e, actor, now);
    case DoProgress(target) => ProgressKeepsInv(e, target);
  }

  lemma {:induction false} RunKeepsInv(e: Event, steps: seq<Step>)
    requires Inv(e)
    ensures Inv(Run(e, steps))
    decreases |steps|
  {
    if steps != [] {
      StepKeepsInv(e, steps[0]);
      RunKeepsInv(Perform(e, steps[0]).event, steps[1..]);
    }
  }

  /** Every state that a run can reach from a draft. */
  lemma {:induction false} ReachableStatesAreSound(draft: Event, steps: seq<Step>, e: Event)
    requires Initial(draft) && e == Run(draft, steps)
    ensures Reserved(e) <= e.capacityMax <= CAPACITY_LIMIT
    ensures e.published.Some? ==> e.capacityMax == e.published.value + Added(e.requests)
    ensures forall i, j :: 0 <= i < |e.requests| && 0 <= j < |e.requests| && BothPending(e.requests, i, j) ==> i == j
    ensures forall k :: 0 <= k < |e.participants| && e.participants[k].departure.None? ==>
                          && NewestRow(e.participants, e.participants[k].user) == Some(k)
                          && FromApproval(e.requests, e.participants[k])
    ensures forall i :: 0 <= i < |e.requests| && e.requests[i].status == Approved ==> HasRow(e.participants, i)
  {
    assert Inv(draft);
    RunKeepsInv(draft, steps);
    PendingIsUnique(e);
    forall k | 0 <= k < |e.participants| && e.participants[k].departure.None?
      ensures NewestRow(e.participants, e.participants[k].user) == Some(k) && FromApproval(e.requests, e.participants[k])
    {
      ActiveRowIsNewest(e, k);
    }
  }

  /** Two positions that hold a PENDING request of the same user. */
  predicate BothPending(rs: seq<Request>, i: nat, j: nat)
    requires i < |rs| && j < |rs|
  {
    rs[i].status == Pending && rs[j].status == Pending && rs[i].user == rs[j].user
  }

  lemma {:induction false} PendingIsUnique(e: Event)
    requires PendingIsNewest(e.requests)
    ensures forall i, j :: 0 <= i < |e.requests| && 0 <= j < |e.requests| && BothPending(e.requests, i, j) ==> i == j
  {
    forall i, j | 0 <= i < j < |e.requests| && e.requests[i].status == Pending
      ensures e.requests[i].user != e.requests[j].user
    {}
  }

  /** The row that leave and remove pick is the active one whenever there is one. */
  lemma {:induction false} ActiveRowIsNewest(e: Event, k: nat)
    requires Inv(e) && k < |e.participants| && e.participants[k].departure.None?
    ensures NewestRow(e.participants, e.participants[k].user) == Some(k)
  {
    var row := NewestRow(e.participants, e.participants[k].user);
    assert row.value >= k;
  }

  // ---------- the lifecycle ----------

  /** A command leaves the status alone or moves it along one transition of the table. */
  lemma {:induction false} StepFollowsTable(e: Event, s: Step)
    requires Inv(e)
    ensures var e1 := Perform(e, s).event;
            FollowsTable(StatusOf(e), StatusOf(e1))
  {
    StepKeepsInv(e, s);
    PhaseMoves(e, s);
  }

  lemma PhaseMoves(e: Event, s: Step)
    requires SeatsInv(e)
    ensures var e1 := Perform(e, s).event;
            || e1.phase == e.phase
            || (e.phase == Preparing && e1.phase == Open)
            || (e1.phase == CalledOff && e.phase in {Preparing, Open, Underway})
            || (e.phase == Open && e1.phase == Underway)
            || (e.phase == Underway && e1.phase == Finished)
  {
  }

  /** The lifecycle: published once, full and active by turns until the start, cancellable until the end. */
  const TRANSITIONS: set<(Status, Status)> :=
    {(Draft, Active), (Draft, Full), (Draft, Cancelled),
     (Active, Full), (Active, InProgress), (Active, Cancelled),
     (Full, Active), (Full, InProgress), (Full, Cancelled),
     (InProgress, Completed), (InProgress, Cancelled)}

  predicate FollowsTable(before: Status, after: Status) { after == before || (before, after) in TRANSITIONS }

  /** Every command of the run leaves the status alone or moves it along one transition. */
  predicate AllFollowTable(e: Event, steps: seq<Step>)
    decreases |steps|
  {
    |steps| == 0 || (FollowsTable(StatusOf(e), StatusOf(Perform(e, steps[0]).event))
                     && AllFollowTable(Perform(e, steps[0]).event, steps[1..]))
  }

  /** Over every run the status moves along the transition table only. */
  lemma {:induction false} RunFollowsTable(e: Event, steps: seq<Step>)
    requires Inv(e)
    ensures AllFollowTable(e, steps)
    decreases |steps|
  {
    if steps != [] {
      StepKeepsInv(e, steps[0]);
      StepFollowsTable(e, steps[0]);
      RunFollowsTable(Perform(e, steps[0]).event, steps[1..]);
    }
  }

  // ---------- history ----------

  /** Facts recorded at creation never change, and a request that is no longer PENDING never changes at all. */
  ghost predicate RequestGrows(r: Request, r1: Request)
  {
    && r1.user == r.user && r1.guests == r.guests
    && r1.requestedAt == r.requestedAt && r1.expiresAt == r.expiresAt
    && r1.capacityAtRequest == r.capacityAtRequest && r1.reservedAtRequest == r.reservedAtRequest
    && (r.status != Pending ==> r1 == r)
  }

  /** The first departure wins: a cancelled row keeps its audit data for ever. */
  ghost predicate RowGrows(p: Participant, p1: Participant)
  {
    && p1.user == p.user && p1.request == p.request && p1.guests == p.guests
    && (p.departure.Some? ==> p1 == p)
  }

  /** Nothing is deleted or rewritten, and a published capacity never shrinks. */
  ghost predicate Extends(e: Event, e1: Event)
  {
    && |e.requests| <= |e1.requests| && |e.participants| <= |e1.participants|
    && (forall i :: 0 <= i < |e.requests| ==> RequestGrows(e.requests[i], e1.requests[i]))
    && (forall k :: 0 <= k < |e.participants| ==> RowGrows(e.participants[k], e1.participants[k]))
    && e1.host == e.host
    && (e.published.Some? ==>
          && e1.published == e.published && e1.terms == e.terms && e1.hostGuests == e.hostGuests
          && e.capacityMax <= e1.capacityMax)
  }

  lemma {:induction false} ExtendsTransitive(a: Event, b: Event, c: Event)
    requires Extends(a, b) && Extends(b, c)
    ensures Extends(a, c)
  {
    forall i | 0 <= i < |a.requests| ensures RequestGrows(a.requests[i], c.requests[i]) {
      assert RequestGrows(a.requests[i], b.requests[i]) && RequestGrows(b.requests[i], c.requests[i]);
    }
    forall k | 0 <= k < |a.participants| ensures RowGrows(a.participants[k], c.participants[k]) {
      assert RowGrows(a.participants[k], b.participants[k]) && RowGrows(b.participants[k], c.participants[k]);
    }
  }

  lemma {:induction false} CloseExtends(e: Event, id: nat, status: RequestStatus, decider: Option<UserId>, at: int)
    requires id < |e.requests| && e.requests[id].status == Pending
    ensures Extends(e, Close(e, id, status, decider, at))
  {}

  lemma {:induction false} AdmitExtends(e: Event, id: nat, decider: Option<UserId>, at: int, expansion: Option<Expansion>)
    requires id < |e.requests| && e.requests[id].status == Pending
    requires expansion.Some? ==> e.capacityMax <= expansion.value.after
    ensures Extends(e, Admit(e, id, decider, at, expansion))
  {}

  lemma {:induction false} SubmitExtends(e: Event, user: UserId, a: Account, guests: nat, c: Clock)
    ensures Extends(e, SubmitIfAllowed(e, user, a, guests, c).event)
  {
    SubmitCases(e, user, a, guests, c);
    var e1 := WithRequest(e, user, guests, c.stamp);
    assert Extends(e, e1);
    if !e.terms.approvalRequired && Fits(e, guests) {
      AdmitExtends(e1, |e.requests|, None, c.approval, None);
      ExtendsTransitive(e, e1, Admit(e1, |e.requests|, None, c.approval, None));
    }
  }

  lemma {:induction false} CreateExtends(e: Event, user: UserId, a: Account, guests: int, c: Clock)
    ensures Extends(e, CreateRequest(e, user, a, guests, c).event)
  {
    CreateCases(e, user, a, guests, c);
    if CreateRequest(e, user, a, guests, c).event != e {
      var live, e1 := PendingOf(e.requests, user), Cleared(e, user, c.pending);
      if live.Some? { CloseExtends(e, live.value, Expired, None, c.pending); }
      SubmitExtends(e1, user, a, guests, c);
      ExtendsTransitive(e, e1, SubmitIfAllowed(e1, user, a, guests, c).event);
    }
  }

  lemma {:induction false} CancelOrRejectExtends(e: Event, user: UserId, id: nat, c: Clock)
    ensures Extends(e, CancelRequest(e, user, id, c).event)
    ensures Extends(e, RejectRequest(e, user, id, c).event)
  {
    if id < |e.requests| && e.requests[id].status == Pending {
      CloseExtends(e, id, Expired, None, c.pending);
      CloseExtends(e, id, Withdrawn, None, c.stamp);
      CloseExtends(e, id, Rejected, Some(user), c.stamp);
    }
  }

  /** Lifecycle commands touch the event's own columns only, and a published event keeps its terms and capacity. */
  lemma LifecycleColumns(e: Event, s: Step)
    requires LifecycleInv(e) && (s.DoUpdate? || s.DoPublish? || s.DoCancelEvent? || s.DoProgress?)
    ensures var e1 := Perform(e, s).event;
            && e1.requests == e.requests && e1.participants == e.participants && e1.host == e.host
            && (e.published.Some? ==> e1.published == e.published && e1.terms == e.terms
                                      && e1.hostGuests == e.hostGuests && e1.capacityMax == e.capacityMax)
  {}

  lemma {:induction false} LifecycleExtends(e: Event, s: Step)
    requires LifecycleInv(e) && (s.DoUpdate? || s.DoPublish? || s.DoCancelEvent? || s.DoProgress?)
    ensures Extends(e, Perform(e, s).event)
  {
    LifecycleColumns(e, s);
  }

  lemma {:induction false} GateExtends(e: Event, actor: UserId, id: nat, a: Account, c: Clock)
    ensures var gate := DecisionGate(e, actor, id, a, c); gate.Some? ==> Extends(e, gate.value.event)
  {
    if id < |e.requests| && e.requests[id].status == Pending {
      CloseExtends(e, id, Expired, None, c.pending);
      CloseExtends(e, id, Expired, None, c.recheck);
    }
  }

  lemma {:induction false} ApproveExtends(e: Event, actor: UserId, id: nat, a: Account, c: Clock)
    requires Inv(e)
    ensures Extends(e, ApproveRequest(e, actor, id, a, c).event)
    ensures Extends(e, ApproveWithOverride(e, actor, id, a, c).event)
  {
    GateKeepsInv(e, actor, id, a, c);
    GateExtends(e, actor, id, a, c);
    ApprovalCases(e, actor, id, a, c);
    if DecisionGate(e, actor, id, a, c).None? {
      AdmitExtends(e, id, Some(actor), c.approval, None);
      AdmitExtends(e, id, Some(actor), c.approval, ExpansionFor(e, id));
    }
  }

  lemma {:induction false} EndExtends(e: Event, user: UserId, actor: UserId, reason: Reason, at: int)
    ensures Extends(e, EndParticipation(e, user, actor, reason, at).event)
  {}

  lemma {:induction false} LeaveOrRemoveExtends(e: Event, actor: UserId, user: UserId, c: Clock)
    ensures Extends(e, LeaveEvent(e, user, c).event)
    ensures Extends(e, RemoveParticipant(e, actor, user, c).event)
  {
    EndExtends(e, user, user, VoluntaryLeave, c.stamp);
    EndExtends(e, user, actor, HostRemoval, c.stamp);
  }

  lemma {:induction false} StepExtends(e: Event, s: Step)
    requires Inv(e)
    ensures Extends(e, Perform(e, s).event)
  {
    match s
    case DoCreate(user, account, guests, clock) => CreateExtends(e, user, account, guests, clock);
    case DoCancelRequest(user, id, clock) => CancelOrRejectExtends(e, user, id, clock);
    case DoReject(actor, id, clock) => CancelOrRejectExtends(e, actor, id, clock);
    case DoApprove(actor, id, account, clock) => ApproveExtends(e, actor, id, account, clock);
    case DoOverride(actor, id, account, clock) => ApproveExtends(e, actor, id, account, clock);
    case DoLeave(user, clock) => LeaveOrRemoveExtends(e, user, user, clock);
    case DoRemove(actor, user, clock) => LeaveOrRemoveExtends(e, actor, user, clock);
    case DoUpdate(_, _, _, _, _) => LifecycleExtends(e, s);
    case DoPublish(_, _, _) => LifecycleExtends(e, s);
    case DoCancelEvent(_, _) => LifecycleExtends(e, s);
    case DoProgress(_) => LifecycleExtends(e, s);
  }

  lemma {:induction false} RunExtends(e: Event, steps: seq<Step>)
    requires Inv(e)
    ensures Extends(e, Run(e, steps))
    decreases |steps|
  {
    if steps != [] {
      var e1 := Perform(e, steps[0]).event;
      StepKeepsInv(e, steps[0]);
      StepExtends(e, steps[0]);
      RunExtends(e1, steps[1..]);
      ExtendsTransitive(e, e1, Run(e1, steps[1..]));
    }
  }

  // ---------- refusals ----------

  /** The whole difference is one overdue PENDING request that is now EXPIRED. */
  ghost predicate OnlyExpired(e: Event, e1: Event, now: int)
  {
    exists id :: 0 <= id < |e.requests| && Due(e.requests[id], now) && e1 == Close(e, id, Expired, None, now)
  }

  function ClockOf(s: Step): Clock
  {
    match s
    case DoCreate(_, _, _, clock) => clock
    case DoCancelRequest(_, _, clock) => clock
    case DoReject(_, _, clock) => clock
    case DoApprove(_, _, _, clock) => clock
    case DoOverride(_, _, _, clock) => clock
    case DoLeave(_, clock) => clock
    case DoRemove(_, _, clock) => clock
    case DoUpdate(_, _, _, _, _) => AllAt(0)
    case DoPublish(_, _, now) => AllAt(now)
    case DoCancelEvent(_, now) => AllAt(now)
    case DoProgress(_) => AllAt(0)
  }

  lemma {:induction false} RefusalOnlyExpires(e: Event, s: Step)
    requires Perform(e, s).outcome.Err?
    ensures var e1 := Perform(e, s).event;
            e1 == e || OnlyExpired(e, e1, ClockOf(s).pending) || OnlyExpired(e, e1, ClockOf(s).recheck)
    ensures !(s.DoCreate? || s.DoCancelRequest? || s.DoReject? || s.DoApprove? || s.DoOverride?) ==> Perform(e, s).event == e
  {}

  ghost predicate AllRefused(e: Event, steps: seq<Step>)
    decreases |steps|
  {
    |steps| == 0 || (Perform(e, steps[0]).outcome.Err? && AllRefused(Perform(e, steps[0]).event, steps[1..]))
  }

  /** Untouched, or PENDING then and EXPIRED now, at an instant not before the deadline. */
  predicate SameOrExpired(r: Request, r1: Request)
  {
    || r1 == r
    || (r.status == Pending && r1.closedAt.Some? && r.expiresAt <= r1.closedAt.value
        && r1 == Closed(r, Expired, None, r1.closedAt.value))
  }

  ghost predicate OnlyExpiries(e: Event, e1: Event)
  {
    && e1 == e.(requests := e1.requests)
    && |e1.requests| == |e.requests|
    && forall i :: 0 <= i < |e.requests| ==> SameOrExpired(e.requests[i], e1.requests[i])
  }

  /** However many commands fail in a row, together they can only have expired overdue requests. */
  lemma {:induction false} RefusalsOnlyExpire(e: Event, steps: seq<Step>)
    requires AllRefused(e, steps)
    ensures OnlyExpiries(e, Run(e, steps))
    decreases |steps|
  {
    if steps != [] {
      var e1 := Perform(e, steps[0]).event;
      RefusalOnlyExpires(e, steps[0]);
      assert OnlyExpiries(e, e1);
      RefusalsOnlyExpire(e1, steps[1..]);
      var e2 := Run(e1, steps[1..]);
      forall i | 0 <= i < |e.requests| ensures SameOrExpired(e.requests[i], e2.requests[i]) {
        assert SameOrExpired(e.requests[i], e1.requests[i]) && SameOrExpired(e1.requests[i], e2.requests[i]);
      }
    }
  }

  // ---------- joining ----------

  /** Admission makes the requester a member, charges exactly the party's seats and affects nobody else. */
  lemma {:induction false} AdmissionEffect(e: Event, id: nat, decider: Option<UserId>, at: int, expansion: Option<Expansion>)
    requires Inv(e) && id < |e.requests| && MayAdmit(e, id, expansion)
    ensures var e1 := Admit(e, id, decider, at, expansion);
            && !IsMember(e.participants, e.requests[id].user) && IsMember(e1.participants, e.requests[id].user)
            && Reserved(e1) == Reserved(e) + 1 + e.requests[id].guests
            && (forall other :: other != e.requests[id].user ==>
                                  (IsMember(e1.participants, other) <==> IsMember(e.participants, other)))
  {
    AdmitSeats(e, id, decider, at, expansion);
    var user := e.requests[id].user;
    var ps := Admit(e, id, decider, at, expansion).participants;
    assert ps[|e.participants|].user == user;
    forall other | other != user ensures IsMember(ps, other) <==> IsMember(e.participants, other) {
      if IsMember(e.participants, other) {
        var k :| 0 <= k < |e.participants| && e.participants[k].user == other && e.participants[k].departure.None?;
        assert ps[k] == e.participants[k];
      }
    }
  }

  /** `e1` is `e` with one more request, which met the capacity of `e` and is seated exactly when `seated`. */
  ghost predicate Requested(e: Event, e1: Event, user: UserId, guests: nat, seated: bool)
  {
    && |e1.requests| == |e.requests| + 1
    && var r := e1.requests[|e.requests|];
    && r.user == user && r.guests == guests && r.expansion.None? && e1.capacityMax == e.capacityMax
    && r.capacityAtRequest == e.capacityMax && r.reservedAtRequest == Reserved(e)
    && r.status == (if seated then Approved else Pending)
    && (IsMember(e1.participants, user) <==> seated)
    && Reserved(e1) == Reserved(e) + (if seated then 1 + guests else 0)
  }

  lemma {:induction false} SubmissionEffect(e: Event, user: UserId, guests: nat, c: Clock)
    requires Inv(e) && e.published.Some? && e.host.manager.Some? && e.host.manager != Some(user) && guests <= GUEST_LIMIT
    requires PendingOf(e.requests, user).None? && !IsMember(e.participants, user)
    ensures Requested(e, SubmitRequest(e, user, guests, c).event, user, guests, !e.terms.approvalRequired && Fits(e, guests))
  {
    SubmitKeepsInv(e, user, guests, c.stamp);
    var e1 := WithRequest(e, user, guests, c.stamp);
    if !e.terms.approvalRequired && Fits(e, guests) {
      AdmissionEffect(e1, |e.requests|, None, c.approval, None);
    }
  }

  /**
   * A created request records the capacity it met. It is approved on the spot
   * exactly when the event approves by itself and the party fits, and never
   * raises the capacity.
   */
  lemma {:induction false} CreationEffect(e: Event, user: UserId, a: Account, guests: nat, c: Clock)
    requires Inv(e) && CreateRequest(e, user, a, guests, c).outcome.Ok?
    ensures Requested(e, CreateRequest(e, user, a, guests, c).event, user, guests,
                      !e.terms.approvalRequired && Fits(e, guests))
  {
    CreateCases(e, user, a, guests, c);
    ClearedKeepsInv(e, user, c.pending);
    ExpiryClears(e, user, c.pending);
    var e1 := Cleared(e, user, c.pending);
    SubmitCases(e1, user, a, guests, c);
    SubmissionEffect(e1, user, guests, c);
    assert e1.terms == e.terms && e1.capacityMax == e.capacityMax && |e1.requests| == |e.requests|;
  }

  // ---------- overrides ----------

  /** An override is recorded exactly when the party did not fit, and then it adds no spare seat. */
  lemma {:induction false} OverrideExactlyWhenNeeded(e: Event, actor: UserId, id: nat, a: Account, c: Clock)
    requires Inv(e) && ApproveWithOverride(e, actor, id, a, c).outcome.Ok?
    ensures id < |e.requests| && e.requests[id].status == Pending
    ensures var e1 := ApproveWithOverride(e, actor, id, a, c).event;
            && e1.requests[id].status == Approved && e1.requests[id].decidedBy == Some(actor)
            && Reserved(e1) == Reserved(e) + 1 + e.requests[id].guests
            && (e1.requests[id].expansion.Some? <==> !Fits(e, e.requests[id].guests))
            && (if Fits(e, e.requests[id].guests) then e1.capacityMax == e.capacityMax
                else && e1.requests[id].expansion == Some(Expansion(e.capacityMax, e1.capacityMax))
                     && e.capacityMax < e1.capacityMax == Reserved(e1) && StatusOf(e1) == Full)
  {
    GateKeepsInv(e, actor, id, a, c);
    ApprovalCases(e, actor, id, a, c);
    OverrideGates(e, actor, id, a, c);
    AdmitSeats(e, id, Some(actor), c.approval, ExpansionFor(e, id));
  }

  /** A decision that passes the gates is about a pending request of an open event. */
  lemma OverrideGates(e: Event, actor: UserId, id: nat, a: Account, c: Clock)
    ensures var gate := DecisionGate(e, actor, id, a, c);
            (gate.Some? ==> gate.value.outcome.Err?) && (gate.None? ==> e.phase == Open)
  {}

  /** The override fails beyond what ordinary approval checks only at the technical ceiling. */
  lemma {:induction false} OverrideAgainstApproval(e: Event, actor: UserId, id: nat, a: Account, c: Clock)
    requires Inv(e)
    ensures var plain := ApproveRequest(e, actor, id, a, c);
            var forced := ApproveWithOverride(e, actor, id, a, c);
            && (plain.outcome != Err(OverrideRequired) ==> forced == plain)
            && (plain.outcome == Err(OverrideRequired) ==>
                  (forced.outcome.Ok? <==> Reserved(e) + 1 + e.requests[id].guests <= CAPACITY_LIMIT))
            && (plain.outcome.Ok? ==> plain.event.capacityMax == e.capacityMax)
  {
    GateKeepsInv(e, actor, id, a, c);
    ApprovalCases(e, actor, id, a, c);
    OverrideGates(e, actor, id, a, c);
    GateNeverAsksForOverride(e, actor, id, a, c);
  }

  lemma GateNeverAsksForOverride(e: Event, actor: UserId, id: nat, a: Account, c: Clock)
    ensures var gate := DecisionGate(e, actor, id, a, c);
            gate.Some? ==> gate.value.outcome != Err(OverrideRequired)
  {}

  // ---------- leaving ----------

  lemma {:induction false} EndIsIdempotent(e: Event, user: UserId, actor: UserId, reason: Reason, at: int,
                                           actor2: UserId, reason2: Reason, at2: int)
    requires EndParticipation(e, user, actor, reason, at).outcome.Ok?
    ensures var first := EndParticipation(e, user, actor, reason, at);
            EndParticipation(first.event, user, actor2, reason2, at2) == first
  {
    var first := EndParticipation(e, user, actor, reason, at);
    var k := NewestRow(e.participants, user).value;
    var k1 := NewestRow(first.event.participants, user);
    assert first.event.participants[k].user == user;
    assert k1 == Some(k);
  }

  /** A retry inside the window changes nothing and returns the first departure's data, whoever retries. */
  lemma {:induction false} LeaveIsIdempotent(e: Event, user: UserId, c: Clock, host: UserId, c2: Clock)
    requires LeaveEvent(e, user, c).outcome.Ok? && c2.joinable < e.terms.startsAt
    ensures var first := LeaveEvent(e, user, c);
            && LeaveEvent(first.event, user, c2) == first
            && (e.host.manager == Some(host) && host != user ==> RemoveParticipant(first.event, host, user, c2) == first)
  {
    EndIsIdempotent(e, user, user, VoluntaryLeave, c.stamp, user, VoluntaryLeave, c2.stamp);
    EndIsIdempotent(e, user, user, VoluntaryLeave, c.stamp, host, HostRemoval, c2.stamp);
  }

  /** Ending a membership frees exactly the party's seats and touches nobody else. */
  lemma {:induction false} EndFreesTheParty(e: Event, user: UserId, actor: UserId, reason: Reason, at: int)
    requires Inv(e) && EndParticipation(e, user, actor, reason, at).outcome.Ok?
    ensures var e1 := EndParticipation(e, user, actor, reason, at).event;
            && !IsMember(e1.participants, user)
            && (forall other :: other != user ==> (IsMember(e1.participants, other) <==> IsMember(e.participants, other)))
            && Reserved(e1) == Reserved(e) - (if IsMember(e.participants, user)
                                              then 1 + e.participants[NewestRow(e.participants, user).value].guests else 0)
            && e1.requests == e.requests && e1.capacityMax == e.capacityMax
  {
    var ps := e.participants;
    var k := NewestRow(ps, user).value;
    var e1 := EndParticipation(e, user, actor, reason, at).event;
    forall l | 0 <= l < |ps| && l != k && ps[l].user == user ensures ps[l].departure.Some? {
      assert l < k;
    }
    if ps[k].departure.None? {
      DepartSeats(e, k, Departure(at, actor, reason));
      assert IsMember(ps, user);
    }
    forall other | other != user ensures IsMember(e1.participants, other) <==> IsMember(ps, other) {
      if IsMember(ps, other) {
        var l :| 0 <= l < |ps| && ps[l].user == other && ps[l].departure.None?;
        assert e1.participants[l].user == other;
      }
    }
  }

  /**
   * An old APPROVED request never blocks a new one: whoever leaves may ask again
   * if the event is PUBLIC, and otherwise no longer sees it.
   */
  lemma {:induction false} RejoinAfterLeaving(e: Event, user: UserId, c: Clock, a: Account, guests: nat, c2: Clock)
    requires Inv(e) && IsMember(e.participants, user) && LeaveEvent(e, user, c).outcome.Ok?
    requires guests <= GUEST_LIMIT && e.terms.startsAt > c2.joinable && e.terms.depositMinor == 0
    requires EligibilityFailure(e.host, e.terms, user, a, c2.account).None?
    ensures CreateRequest(LeaveEvent(e, user, c).event, user, a, guests, c2).outcome ==
            (if e.terms.visibility == Public then Ok(RequestId(|e.requests|)) else Err(EventNotFound))
  {
    EndFreesTheParty(e, user, user, VoluntaryLeave, c.stamp);
    var e1 := LeaveEvent(e, user, c).event;
    assert PendingOf(e1.requests, user).None? by {
      var k :| 0 <= k < |e.participants| && e.participants[k].user == user && e.participants[k].departure.None?;
    }
    assert e1 == e.(participants := e1.participants);
    CreateWithoutPending(e1, user, a, guests, c2);
  }

  /** Without a pending request the only gate before the submission is the visibility of the event. */
  lemma CreateWithoutPending(e: Event, user: UserId, a: Account, guests: nat, c: Clock)
    requires PendingOf(e.requests, user).None? && guests <= GUEST_LIMIT && e.phase == Open && !IsMember(e.participants, user)
    requires e.host.manager.None? || e.host.manager.value != user
    requires e.host.manager.None? ==> e.requests == []
    ensures CreateRequest(e, user, a, guests, c) ==
            if e.host.manager.Some? && e.terms.visibility == Public then SubmitIfAllowed(e, user, a, guests, c)
            else Refuse(e, EventNotFound)
  {
    forall i | 0 <= i < |e.requests| ensures !LivePending(e.requests[i], user, c.visibility) {}
  }
}
