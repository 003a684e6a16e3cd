/**
 * Consent withdrawal against enabling discovery, for one user, under READ
 * COMMITTED. A transaction is a row of small steps: take a lock, read what is
 * committed, buffer a write, commit. Any number of transactions interleave.
 */
module ConsentProtocol {
  import opened Common

  datatype ConsentType = Terms | Privacy | Marketing | LocationProcessing

  datatype ConsentEvent = ConsentEvent(kind: ConsentType, granted: bool, version: string, createdAt: int, id: nat)

  /** What an insert would give its row: a reading of the database clock, which may go backwards, and the row id. */
  datatype Stamp = Stamp(now: int, id: nat)

  datatype Policy = Policy(terms: string, privacy: string)

  datatype Lock = ConsentLock(kind: ConsentType) | SettingsRow

  /** `Record` is `recordOwn`; `Update` is `updateOwn` with the discovery part of its patch. */
  datatype Command =
    | Record(kind: ConsentType, granted: bool, version: string)
    | Update(discovery: Option<bool>)

  datatype Phase =
    | Begin
    | TermsLocked
    | BothLocked
    | ConsentsChecked
    | RowRead(current: bool)
    | Saving(value: bool)
    | RecordLocked
    | Appended(event: ConsentEvent)
    | Withdrawing(event: ConsentEvent)
    | Committed
    | Aborted

  datatype Txn = Txn(command: Command, phase: Phase)

  /** Committed data, the locks and the running transactions. */
  datatype State = State(
    log: seq<ConsentEvent>, discovery: Option<bool>,
    locks: map<Lock, nat>, txns: map<nat, Txn>)

  predicate Required(kind: ConsentType) { kind.Terms? || kind.Privacy? }

  predicate IsCurrent(policy: Policy, kind: ConsentType, version: string) {
    match kind
    case Terms => version == policy.terms
    case Privacy => version == policy.privacy
    case _ => true
  }

  predicate Enables(c: Command) { c == Update(Some(true)) }

  predicate Withdraws(c: Command) { c.Record? && !c.granted && Required(c.kind) }

  predicate Newer(a: ConsentEvent, b: ConsentEvent) {
    a.createdAt > b.createdAt || (a.createdAt == b.createdAt && a.id > b.id)
  }

  /** DISTINCT ON consent_type, newest first, ties broken by id. */
  function Latest(log: seq<ConsentEvent>, kind: ConsentType): Option<ConsentEvent> {
    if log == [] then None
    else
      var earlier := Latest(log[..|log| - 1], kind);
      var last := log[|log| - 1];
      if last.kind == kind && (earlier.None? || Newer(last, earlier.value)) then Some(last)
      else earlier
  }

  predicate GrantedNow(policy: Policy, log: seq<ConsentEvent>, kind: ConsentType) {
    var latest := Latest(log, kind);
    latest.Some? && latest.value.granted && IsCurrent(policy, kind, latest.value.version)
  }

  predicate RequiredConsentsGranted(policy: Policy, log: seq<ConsentEvent>) {
    GrantedNow(policy, log, Terms) && GrantedNow(policy, log, Privacy)
  }

  // ----- Steps -----

  /** `stamp` is used by the step that inserts a consent event. */
  datatype Step = Start(id: nat, command: Command) | Advance(id: nat, stamp: Stamp) | Abort(id: nat)

  function SetPhase(s: State, t: nat, p: Phase): State
    requires t in s.txns
  {
    s.(txns := s.txns[t := s.txns[t].(phase := p)])
  }

  /** Commit and rollback both release every lock of the transaction. */
  function Finish(s: State, t: nat, p: Phase): State
    requires t in s.txns
  {
    SetPhase(s, t, p).(locks := map l | l in s.locks && s.locks[l] != t :: s.locks[l])
  }

  /** Blocks (no change) while the lock is taken. */
  function TakeLock(s: State, t: nat, l: Lock, p: Phase): State
    requires t in s.txns
  {
    if l in s.locks then s else SetPhase(s, t, p).(locks := s.locks[l := t])
  }

  /** SELECT ... FOR UPDATE of the settings row: the read sees the row as committed once locked. */
  function LockRow(s: State, t: nat): State
    requires t in s.txns
  {
    if s.discovery.None? then Finish(s, t, Aborted)
    else TakeLock(s, t, SettingsRow, RowRead(s.discovery.value))
  }

  /** Validation and the first lock. */
  function FirstStep(policy: Policy, s: State, t: nat): State
    requires t in s.txns
  {
    var c := s.txns[t].command;
    if c.Record? then
      if !IsCurrent(policy, c.kind, c.version) then Finish(s, t, Aborted)
      else TakeLock(s, t, ConsentLock(c.kind), RecordLocked)
    else if Enables(c) then TakeLock(s, t, ConsentLock(Terms), TermsLocked)
    else LockRow(s, t)
  }

  function AdvanceTxn(policy: Policy, s: State, t: nat, stamp: Stamp): State
    requires t in s.txns
  {
    var c := s.txns[t].command;
    match s.txns[t].phase
    case Begin => FirstStep(policy, s, t)
    case TermsLocked => TakeLock(s, t, ConsentLock(Privacy), BothLocked)
    case BothLocked =>
      if RequiredConsentsGranted(policy, s.log) then SetPhase(s, t, ConsentsChecked)
      else Finish(s, t, Aborted)
    case ConsentsChecked => LockRow(s, t)
    case RowRead(current) =>
      SetPhase(s, t, Saving(if c.Update? && c.discovery.Some? then c.discovery.value else current))
    case Saving(value) => Finish(s, t, Committed).(discovery := Some(value))
    case RecordLocked =>
      if c.Record? then
        SetPhase(s, t, Appended(ConsentEvent(c.kind, c.granted, c.version, stamp.now, stamp.id)))
      else s
    case Appended(event) =>
      if Withdraws(c) && s.discovery.Some? then TakeLock(s, t, SettingsRow, Withdrawing(event))
      else Finish(s, t, Committed).(log := s.log + [event])
    case Withdrawing(event) =>
      Finish(s, t, Committed).(log := s.log + [event], discovery := Some(false))
    case Committed => s
    case Aborted => s
  }

  predicate Finished(x: Txn) { x.phase.Committed? || x.phase.Aborted? }

  function Apply(policy: Policy, s: State, step: Step): State {
    match step
    case Start(t, c) => if t in s.txns then s else s.(txns := s.txns[t := Txn(c, Begin)])
    case Advance(t, stamp) => if t in s.txns then AdvanceTxn(policy, s, t, stamp) else s
    case Abort(t) => if t in s.txns && !Finished(s.txns[t]) then Finish(s, t, Aborted) else s
  }

  function Run(policy: Policy, s: State, steps: seq<Step>): State
    decreases |steps|
  {
    if steps == [] then s else Run(policy, Apply(policy, s, steps[0]), steps[1..])
  }

  predicate Initial(s: State) {
    && s.discovery != Some(true)
    && s.locks == map[] && s.txns == map[]
  }

  // ----- Invariant -----

  /** The locks a transaction has taken by its phase, in the order it took them. */
  function Held(x: Txn): set<Lock> {
    var consents := {ConsentLock(Terms), ConsentLock(Privacy)};
    match x.phase
    case Begin => {}
    case TermsLocked => {ConsentLock(Terms)}
    case BothLocked => consents
    case ConsentsChecked => consents
    case RowRead(_) => (if Enables(x.command) then consents else {}) + {SettingsRow}
    case Saving(_) => (if Enables(x.command) then consents else {}) + {SettingsRow}
    case RecordLocked => if x.command.Record? then {ConsentLock(x.command.kind)} else {}
    case Appended(_) => if x.command.Record? then {ConsentLock(x.command.kind)} else {}
    case Withdrawing(_) => if x.command.Record? then {ConsentLock(x.command.kind), SettingsRow} else {}
    case Committed => {}
    case Aborted => {}
  }

  predicate PhaseFits(policy: Policy, x: Txn) {
    match x.phase
    case TermsLocked => Enables(x.command)
    case BothLocked => Enables(x.command)
    case ConsentsChecked => Enables(x.command)
    case RowRead(_) => x.command.Update?
    case Saving(v) => x.command.Update? && (x.command.discovery.Some? ==> v == x.command.discovery.value)
    case RecordLocked => x.command.Record? && IsCurrent(policy, x.command.kind, x.command.version)
    case Appended(e) =>
      && x.command.Record? && IsCurrent(policy, x.command.kind, x.command.version)
      && e == ConsentEvent(x.command.kind, x.command.granted, x.command.version, e.createdAt, e.id)
    case Withdrawing(e) =>
      && Withdraws(x.command) && IsCurrent(policy, x.command.kind, x.command.version)
      && e == ConsentEvent(x.command.kind, x.command.granted, x.command.version, e.createdAt, e.id)
    case _ => true
  }

  predicate HasChecked(x: Txn) {
    Enables(x.command) && (x.phase.ConsentsChecked? || x.phase.RowRead? || x.phase.Saving?)
  }

  predicate LocksMatch(s: State) {
    && (forall l :: l in s.locks ==> s.locks[l] in s.txns && l in Held(s.txns[s.locks[l]]))
    && (forall t :: t in s.txns ==> OwnsHeld(s, t))
  }

  predicate OwnsHeld(s: State, t: nat)
    requires t in s.txns
  {
    forall l :: l in Held(s.txns[t]) ==> l in s.locks && s.locks[l] == t
  }

  predicate Pending(x: Txn) { x.phase.Appended? || x.phase.Withdrawing? }

  predicate TxnInv(policy: Policy, s: State, x: Txn) {
    && PhaseFits(policy, x)
    && (HasChecked(x) ==> RequiredConsentsGranted(policy, s.log))
    && (x.phase.RowRead? ==> s.discovery == Some(x.phase.current))
    && (x.phase.Withdrawing? ==> s.discovery.Some?)
    && (x.phase.Saving? && x.command.Update? && x.command.discovery.None? ==> s.discovery == Some(x.phase.value))
  }

  /** The promise of the two services: discovery is on only under both current consents. */
  predicate DiscoverySafe(policy: Policy, s: State) {
    s.discovery == Some(true) ==> RequiredConsentsGranted(policy, s.log)
  }

  predicate Inv(policy: Policy, s: State) {
    && LocksMatch(s)
    && DiscoverySafe(policy, s)
    && forall t :: t in s.txns ==> TxnInv(policy, s, s.txns[t])
  }

  // ----- Preservation -----

  /** The latest event of a type is one of its events, and no other event of the type is newer. */
  lemma {:induction false} LatestIsNewest(log: seq<ConsentEvent>, kind: ConsentType)
    ensures match Latest(log, kind)
            case None => forall i :: 0 <= i < |log| ==> log[i].kind != kind
            case Some(e) => e in log && e.kind == kind && forall i :: 0 <= i < |log| && log[i].kind == kind ==> !Newer(log[i], e)
  {
    if log != [] { LatestIsNewest(log[..|log| - 1], kind); }
  }

  /** An append changes the latest event of its own type at most, and does so exactly when it is newer than that. */
  lemma LatestAfterAppend(log: seq<ConsentEvent>, e: ConsentEvent, kind: ConsentType)
    ensures Latest(log + [e], kind) == Latest(log, kind) || (Latest(log + [e], kind) == Some(e) && e.kind == kind)
    ensures e.kind == kind && (forall i :: 0 <= i < |log| && log[i].kind == kind ==> Newer(e, log[i])) ==>
              Latest(log + [e], kind) == Some(e)
    ensures e.kind == kind && (exists i :: 0 <= i < |log| && log[i].kind == kind && Newer(log[i], e)) ==>
              Latest(log + [e], kind) == Latest(log, kind)
  {
    assert (log + [e])[..|log|] == log;
    LatestIsNewest(log, kind);
  }

  lemma Exclusive(s: State, t: nat, u: nat, l: Lock)
    requires LocksMatch(s) && t in s.txns && u in s.txns
    requires l in Held(s.txns[t]) && l in Held(s.txns[u])
    ensures t == u
  {
    assert OwnsHeld(s, t) && OwnsHeld(s, u);
  }

  lemma FinishKeepsLocks(s: State, t: nat, p: Phase)
    requires t in s.txns && LocksMatch(s) && (p.Committed? || p.Aborted?)
    ensures LocksMatch(Finish(s, t, p))
  {
  }

  lemma TakeLockKeepsLocks(s: State, t: nat, l: Lock, p: Phase)
    requires t in s.txns && LocksMatch(s) && l !in s.locks
    requires Held(s.txns[t].(phase := p)) == Held(s.txns[t]) + {l}
    ensures LocksMatch(TakeLock(s, t, l, p))
  {
  }

  lemma SetPhaseKeepsLocks(s: State, t: nat, p: Phase)
    requires t in s.txns && LocksMatch(s)
    requires Held(s.txns[t].(phase := p)) == Held(s.txns[t])
    ensures LocksMatch(SetPhase(s, t, p))
  {
  }

  /** A step that changes one transaction and no committed data. */
  lemma PrivateStepKeepsInv(policy: Policy, s: State, s': State, t: nat, p: Phase)
    requires Inv(policy, s) && t in s.txns && LocksMatch(s')
    requires s'.log == s.log && s'.discovery == s.discovery
    requires s'.txns == s.txns[t := s.txns[t].(phase := p)]
    requires TxnInv(policy, s, s.txns[t].(phase := p))
    ensures Inv(policy, s')
  {
    forall u | u in s'.txns ensures TxnInv(policy, s', s'.txns[u]) {
      if u != t { assert TxnInv(policy, s, s.txns[u]); }
    }
  }

  lemma AbortKeepsInv(policy: Policy, s: State, t: nat)
    requires Inv(policy, s) && t in s.txns
    ensures Inv(policy, Finish(s, t, Aborted))
  {
    FinishKeepsLocks(s, t, Aborted);
    PrivateStepKeepsInv(policy, s, Finish(s, t, Aborted), t, Aborted);
  }

  /** Taking the next lock in order, or blocking on it. */
  lemma TakeLockKeepsInv(policy: Policy, s: State, t: nat, l: Lock, p: Phase)
    requires Inv(policy, s) && t in s.txns
    requires Held(s.txns[t].(phase := p)) == Held(s.txns[t]) + {l}
    requires TxnInv(policy, s, s.txns[t].(phase := p))
    ensures Inv(policy, TakeLock(s, t, l, p))
  {
    if l !in s.locks {
      TakeLockKeepsLocks(s, t, l, p);
      PrivateStepKeepsInv(policy, s, TakeLock(s, t, l, p), t, p);
    }
  }

  lemma LockRowKeepsInv(policy: Policy, s: State, t: nat)
    requires Inv(policy, s) && t in s.txns && s.txns[t].command.Update?
    requires s.txns[t].phase.ConsentsChecked? || (s.txns[t].phase.Begin? && !Enables(s.txns[t].command))
    ensures Inv(policy, LockRow(s, t))
  {
    assert TxnInv(policy, s, s.txns[t]);
    if s.discovery.None? {
      AbortKeepsInv(policy, s, t);
    } else {
      TakeLockKeepsInv(policy, s, t, SettingsRow, RowRead(s.discovery.value));
    }
  }

  /** While one transaction holds the settings row, no other has read it. */
  lemma RowHolderIsAlone(policy: Policy, s: State, t: nat, u: nat)
    requires Inv(policy, s) && t in s.txns && u in s.txns && t != u && SettingsRow in Held(s.txns[t])
    ensures !s.txns[u].phase.RowRead? && !s.txns[u].phase.Saving?
  {
    if s.txns[u].phase.RowRead? || s.txns[u].phase.Saving? {
      Exclusive(s, t, u, SettingsRow);
    }
  }

  /** While an event of a required type is buffered, no other transaction has checked the consents. */
  lemma RecorderExcludesEnable(policy: Policy, s: State, t: nat, u: nat)
    requires Inv(policy, s) && t in s.txns && u in s.txns && t != u && Pending(s.txns[t])
    ensures Pending(s.txns[u]) ==> s.txns[u].phase.event.kind != s.txns[t].phase.event.kind
    ensures Required(s.txns[t].phase.event.kind) ==> !HasChecked(s.txns[u])
  {
    assert TxnInv(policy, s, s.txns[t]) && TxnInv(policy, s, s.txns[u]);
    var l := ConsentLock(s.txns[t].phase.event.kind);
    assert l in Held(s.txns[t]);
    if l in Held(s.txns[u]) {
      Exclusive(s, t, u, l);
    }
  }

  /** Committing an event of a locked type: no other transaction relies on that type. */
  lemma CommitEventKeepsInv(policy: Policy, s: State, t: nat, off: bool)
    requires Inv(policy, s) && t in s.txns && Pending(s.txns[t])
    requires off <==> s.txns[t].phase.Withdrawing?
    requires !off ==> (Withdraws(s.txns[t].command) ==> s.discovery.None?)
    ensures var s' := Finish(s, t, Committed).(log := s.log + [s.txns[t].phase.event]);
            Inv(policy, if off then s'.(discovery := Some(false)) else s')
  {
    assert TxnInv(policy, s, s.txns[t]);
    var e := s.txns[t].phase.event;
    var s1 := Finish(s, t, Committed).(log := s.log + [e]);
    var s' := if off then s1.(discovery := Some(false)) else s1;
    FinishKeepsLocks(s, t, Committed);
    CommitEventKeepsConsents(policy, s, t);
    forall u | u in s'.txns ensures TxnInv(policy, s', s'.txns[u]) {
      if u != t {
        CommitEventKeepsOther(policy, s, t, u, s');
      }
    }
  }

  /** The two required consents after the commit: a grant keeps them, and a type not required is irrelevant. */
  lemma CommitEventKeepsConsents(policy: Policy, s: State, t: nat)
    requires Inv(policy, s) && t in s.txns && Pending(s.txns[t])
    ensures !Withdraws(s.txns[t].command) && RequiredConsentsGranted(policy, s.log) ==>
              RequiredConsentsGranted(policy, s.log + [s.txns[t].phase.event])
    ensures !Required(s.txns[t].phase.event.kind) ==>
              (RequiredConsentsGranted(policy, s.log) <==> RequiredConsentsGranted(policy, s.log + [s.txns[t].phase.event]))
  {
    assert TxnInv(policy, s, s.txns[t]);
    LatestAfterAppend(s.log, s.txns[t].phase.event, Terms);
    LatestAfterAppend(s.log, s.txns[t].phase.event, Privacy);
  }

  lemma CommitEventKeepsOther(policy: Policy, s: State, t: nat, u: nat, s': State)
    requires Inv(policy, s) && t in s.txns && u in s.txns && t != u && Pending(s.txns[t])
    requires s'.log == s.log + [s.txns[t].phase.event]
    requires s'.discovery == if s.txns[t].phase.Withdrawing? then Some(false) else s.discovery
    ensures TxnInv(policy, s', s.txns[u])
  {
    assert TxnInv(policy, s, s.txns[t]) && TxnInv(policy, s, s.txns[u]);
    CommitEventKeepsConsents(policy, s, t);
    RecorderExcludesEnable(policy, s, t, u);
    if s.txns[t].phase.Withdrawing? { RowHolderIsAlone(policy, s, t, u); }
  }

  lemma CommitSettingsKeepsInv(policy: Policy, s: State, t: nat)
    requires Inv(policy, s) && t in s.txns && s.txns[t].phase.Saving?
    ensures Inv(policy, Finish(s, t, Committed).(discovery := Some(s.txns[t].phase.value)))
  {
    FinishKeepsLocks(s, t, Committed);
    assert TxnInv(policy, s, s.txns[t]);
    var s' := Finish(s, t, Committed).(discovery := Some(s.txns[t].phase.value));
    forall u | u in s'.txns ensures TxnInv(policy, s', s'.txns[u]) {
      if u != t {
        assert TxnInv(policy, s, s.txns[u]);
        RowHolderIsAlone(policy, s, t, u);
      }
    }
  }

  lemma RowReadKeepsInv(policy: Policy, s: State, t: nat, stamp: Stamp)
    requires Inv(policy, s) && t in s.txns && s.txns[t].phase.RowRead?
    ensures Inv(policy, AdvanceTxn(policy, s, t, stamp))
  {
    var x := s.txns[t];
    assert TxnInv(policy, s, x);
    var p := Saving(if x.command.discovery.Some? then x.command.discovery.value else x.phase.current);
    SetPhaseKeepsLocks(s, t, p);
    PrivateStepKeepsInv(policy, s, SetPhase(s, t, p), t, p);
  }

  lemma AppendKeepsInv(policy: Policy, s: State, t: nat, stamp: Stamp)
    requires Inv(policy, s) && t in s.txns && s.txns[t].phase.RecordLocked?
    ensures Inv(policy, AdvanceTxn(policy, s, t, stamp))
  {
    var c := s.txns[t].command;
    assert TxnInv(policy, s, s.txns[t]);
    var p := Appended(ConsentEvent(c.kind, c.granted, c.version, stamp.now, stamp.id));
    SetPhaseKeepsLocks(s, t, p);
    PrivateStepKeepsInv(policy, s, AdvanceTxn(policy, s, t, stamp), t, p);
  }

  lemma CheckKeepsInv(policy: Policy, s: State, t: nat, stamp: Stamp)
    requires Inv(policy, s) && t in s.txns && s.txns[t].phase.BothLocked?
    ensures Inv(policy, AdvanceTxn(policy, s, t, stamp))
  {
    assert TxnInv(policy, s, s.txns[t]);
    if RequiredConsentsGranted(policy, s.log) {
      SetPhaseKeepsLocks(s, t, ConsentsChecked);
      PrivateStepKeepsInv(policy, s, SetPhase(s, t, ConsentsChecked), t, ConsentsChecked);
    } else {
      AbortKeepsInv(policy, s, t);
    }
  }

  lemma BeginKeepsInv(policy: Policy, s: State, t: nat, stamp: Stamp)
    requires Inv(policy, s) && t in s.txns && s.txns[t].phase.Begin?
    ensures Inv(policy, AdvanceTxn(policy, s, t, stamp))
  {
    var c := s.txns[t].command;
    if c.Record? {
      if !IsCurrent(policy, c.kind, c.version) {
        AbortKeepsInv(policy, s, t);
      } else {
        TakeLockKeepsInv(policy, s, t, ConsentLock(c.kind), RecordLocked);
      }
    } else if Enables(c) {
      TakeLockKeepsInv(policy, s, t, ConsentLock(Terms), TermsLocked);
    } else {
      LockRowKeepsInv(policy, s, t);
    }
  }

  lemma AppendedKeepsInv(policy: Policy, s: State, t: nat, stamp: Stamp)
    requires Inv(policy, s) && t in s.txns && s.txns[t].phase.Appended?
    ensures Inv(policy, AdvanceTxn(policy, s, t, stamp))
  {
    assert TxnInv(policy, s, s.txns[t]);
    if Withdraws(s.txns[t].command) && s.discovery.Some? {
      TakeLockKeepsInv(policy, s, t, SettingsRow, Withdrawing(s.txns[t].phase.event));
    } else {
      CommitEventKeepsInv(policy, s, t, false);
    }
  }

  lemma AdvanceKeepsInv(policy: Policy, s: State, t: nat, stamp: Stamp)
    requires Inv(policy, s) && t in s.txns
    ensures Inv(policy, AdvanceTxn(policy, s, t, stamp))
  {
    assert TxnInv(policy, s, s.txns[t]);
    match s.txns[t].phase
    case Begin => BeginKeepsInv(policy, s, t, stamp);
    case TermsLocked => TakeLockKeepsInv(policy, s, t, ConsentLock(Privacy), BothLocked);
    case BothLocked => CheckKeepsInv(policy, s, t, stamp);
    case ConsentsChecked => LockRowKeepsInv(policy, s, t);
    case RowRead(_) => RowReadKeepsInv(policy, s, t, stamp);
    case Saving(_) => CommitSettingsKeepsInv(policy, s, t);
    case RecordLocked => AppendKeepsInv(policy, s, t, stamp);
    case Appended(_) => AppendedKeepsInv(policy, s, t, stamp);
    case Withdrawing(_) => CommitEventKeepsInv(policy, s, t, true);
    case Committed =>
    case Aborted =>
  }

  lemma StepKeepsInv(policy: Policy, s: State, step: Step)
    requires Inv(policy, s)
    ensures Inv(policy, Apply(policy, s, step))
  {
    match step
    case Start(t, c) =>
    case Advance(t, stamp) => if t in s.txns { AdvanceKeepsInv(policy, s, t, stamp); }
    case Abort(t) => if t in s.txns { AbortKeepsInv(policy, s, t); }
  }

  lemma {:induction false} RunKeepsInv(policy: Policy, s: State, steps: seq<Step>)
    requires Inv(policy, s)
    ensures Inv(policy, Run(policy, s, steps))
    decreases |steps|
  {
    if steps != [] {
      StepKeepsInv(policy, s, steps[0]);
      RunKeepsInv(policy, Apply(policy, s, steps[0]), steps[1..]);
    }
  }

  /** The `i`-th event grants `kind` at `version`, and no event of the type has a later reading, or the same and a higher id. */
  predicate Stands(log: seq<ConsentEvent>, i: int, kind: ConsentType, version: string)
    requires 0 <= i < |log|
  {
    && log[i].kind == kind && log[i].granted && log[i].version == version
    && forall j :: 0 <= j < |log| && log[j].kind == kind ==>
                     || log[j].createdAt < log[i].createdAt
                     || (log[j].createdAt == log[i].createdAt && log[j].id <= log[i].id)
  }

  /** A consent counts exactly when one of its events grants the current version and stands. */
  lemma GrantStands(policy: Policy, log: seq<ConsentEvent>, kind: ConsentType)
    requires Required(kind) && GrantedNow(policy, log, kind)
    ensures exists i :: 0 <= i < |log| && Stands(log, i, kind, CurrentVersion(policy, kind))
  {
    LatestIsNewest(log, kind);
    var i :| 0 <= i < |log| && log[i] == Latest(log, kind).value;
    assert Stands(log, i, kind, CurrentVersion(policy, kind));
  }

  function CurrentVersion(policy: Policy, kind: ConsentType): string
    requires kind.Terms? || kind.Privacy?
  {
    if kind.Terms? then policy.terms else policy.privacy
  }

  /** In every interleaving, and whatever the clock reads, committed discovery implies both current consents. */
  lemma DiscoveryAlwaysConsented(policy: Policy, s: State, steps: seq<Step>)
    requires Initial(s)
    ensures var r := Run(policy, s, steps);
            r.discovery == Some(true) ==>
              && (exists i :: 0 <= i < |r.log| && Stands(r.log, i, Terms, policy.terms))
              && (exists i :: 0 <= i < |r.log| && Stands(r.log, i, Privacy, policy.privacy))
  {
    RunKeepsInv(policy, s, steps);
    var r := Run(policy, s, steps);
    if r.discovery == Some(true) {
      GrantStands(policy, r.log, Terms);
      GrantStands(policy, r.log, Privacy);
    }
  }

  // ----- What commits leave behind -----

  predicate HasCommitted(s: State, t: nat) { t in s.txns && s.txns[t].phase.Committed? }

  predicate Recorded(s: State, t: nat) { HasCommitted(s, t) && s.txns[t].command.Record? }

  /** The row that a record command stores; required consents are recorded at the current version only. */
  predicate IsRowOf(policy: Policy, e: ConsentEvent, c: Command) {
    && c.Record? && e.kind == c.kind && e.granted == c.granted && e.version == c.version
    && (c.kind.Terms? ==> c.version == policy.terms) && (c.kind.Privacy? ==> c.version == policy.privacy)
  }

  predicate RowRecordedBy(policy: Policy, e: ConsentEvent, s: State, t: nat) {
    Recorded(s, t) && IsRowOf(policy, e, s.txns[t].command)
  }

  /** After `base` the log holds one row for each committed record command, in the order `owners`, and nothing else. */
  ghost predicate LogOf(policy: Policy, base: seq<ConsentEvent>, s: State, owners: seq<nat>) {
    && base <= s.log && |s.log| == |base| + |owners|
    && (forall i, j :: 0 <= i < j < |owners| ==> owners[i] != owners[j])
    && (forall t :: t in owners <==> Recorded(s, t))
    && (forall i :: 0 <= i < |owners| ==> RowRecordedBy(policy, s.log[|base| + i], s, owners[i]))
  }

  /** What one step can do to the log and to the commands that have committed. */
  lemma StepAppends(policy: Policy, s: State, step: Step)
    requires Inv(policy, s)
    ensures var s' := Apply(policy, s, step);
            && (forall t :: t in s.txns ==> t in s'.txns && s'.txns[t].command == s.txns[t].command)
            && (forall t :: HasCommitted(s, t) ==> HasCommitted(s', t))
            && (if step.Advance? && Recorded(s', step.id) && !Recorded(s, step.id) then
                  && |s'.log| == |s.log| + 1 && s'.log[..|s.log|] == s.log
                  && IsRowOf(policy, s'.log[|s.log|], s'.txns[step.id].command)
                  && (forall t :: t != step.id ==> (Recorded(s', t) <==> Recorded(s, t)))
                else s'.log == s.log && forall t :: Recorded(s', t) <==> Recorded(s, t))
  {
    StepTouchesOne(policy, s, step);
    if step.Advance? && step.id in s.txns { AdvanceAppends(policy, s, step.id, step.stamp); }
  }

  /** A step leaves every other transaction alone, and a transaction keeps its command and its commit. */
  lemma StepTouchesOne(policy: Policy, s: State, step: Step)
    ensures var s' := Apply(policy, s, step);
            && (forall t :: t != step.id ==> (t in s'.txns <==> t in s.txns))
            && (forall t :: t != step.id && t in s.txns ==> s'.txns[t] == s.txns[t])
            && (step.id in s.txns ==> step.id in s'.txns && s'.txns[step.id].command == s.txns[step.id].command)
            && (HasCommitted(s, step.id) ==> HasCommitted(s', step.id))
            && (!step.Advance? ==> s'.log == s.log && (HasCommitted(s', step.id) ==> HasCommitted(s, step.id)))
  {
    if step.Advance? && step.id in s.txns { AdvanceTouchesOne(policy, s, step.id, step.stamp); }
  }

  predicate TouchesOne(s: State, s': State, t: nat)
    requires t in s.txns
  {
    && t in s'.txns && s'.txns == s.txns[t := s.txns[t].(phase := s'.txns[t].phase)]
    && (s.txns[t].phase.Committed? ==> s' == s)
  }

  lemma AdvanceTouchesOne(policy: Policy, s: State, t: nat, stamp: Stamp)
    requires t in s.txns
    ensures TouchesOne(s, AdvanceTxn(policy, s, t, stamp), t)
  {
    var p := s.txns[t].phase;
    if p.Begin? {
      FirstTouchesOne(policy, s, t);
    } else if p.TermsLocked? || p.BothLocked? || p.ConsentsChecked? || p.RowRead? || p.Saving? {
      UpdateTouchesOne(policy, s, t, stamp);
    } else {
      RecordTouchesOne(policy, s, t, stamp);
    }
  }

  lemma FirstTouchesOne(policy: Policy, s: State, t: nat)
    requires t in s.txns && s.txns[t].phase.Begin?
    ensures TouchesOne(s, FirstStep(policy, s, t), t)
  {
  }

  lemma UpdateTouchesOne(policy: Policy, s: State, t: nat, stamp: Stamp)
    requires t in s.txns
    requires var p := s.txns[t].phase; p.TermsLocked? || p.BothLocked? || p.ConsentsChecked? || p.RowRead? || p.Saving?
    ensures TouchesOne(s, AdvanceTxn(policy, s, t, stamp), t)
  {
  }

  lemma RecordTouchesOne(policy: Policy, s: State, t: nat, stamp: Stamp)
    requires t in s.txns
    requires var p := s.txns[t].phase; p.RecordLocked? || p.Appended? || p.Withdrawing? || p.Committed? || p.Aborted?
    ensures TouchesOne(s, AdvanceTxn(policy, s, t, stamp), t)
  {
  }

  lemma AdvanceAppends(policy: Policy, s: State, t: nat, stamp: Stamp)
    requires t in s.txns && TxnInv(policy, s, s.txns[t])
    ensures var s' := AdvanceTxn(policy, s, t, stamp);
            if Recorded(s', t) && !Recorded(s, t) then
              |s'.log| == |s.log| + 1 && s'.log[..|s.log|] == s.log && IsRowOf(policy, s'.log[|s.log|], s.txns[t].command)
            else s'.log == s.log
  {
    var x := s.txns[t];
    if Pending(x) {
      assert IsRowOf(policy, x.phase.event, x.command);
    }
  }

  lemma {:induction false} RunRecords(policy: Policy, base: seq<ConsentEvent>, s: State, owners: seq<nat>, steps: seq<Step>)
      returns (all: seq<nat>)
    requires Inv(policy, s) && LogOf(policy, base, s, owners)
    ensures LogOf(policy, base, Run(policy, s, steps), all)
    decreases |steps|
  {
    if steps == [] { return owners; }
    var s' := Apply(policy, s, steps[0]);
    StepAppends(policy, s, steps[0]);
    StepKeepsInv(policy, s, steps[0]);
    var now := StepRecords(policy, base, s, owners, steps[0]);
    all := RunRecords(policy, base, s', now, steps[1..]);
  }

  lemma StepRecords(policy: Policy, base: seq<ConsentEvent>, s: State, owners: seq<nat>, step: Step) returns (now: seq<nat>)
    requires Inv(policy, s) && LogOf(policy, base, s, owners)
    ensures LogOf(policy, base, Apply(policy, s, step), now)
  {
    var s' := Apply(policy, s, step);
    StepAppends(policy, s, step);
    if step.Advance? && Recorded(s', step.id) && !Recorded(s, step.id) {
      now := owners + [step.id];
      forall t ensures t in now <==> Recorded(s', t) {}
      forall i | 0 <= i < |now| ensures RowRecordedBy(policy, s'.log[|base| + i], s', now[i]) {
        if i < |owners| { assert RowRecordedBy(policy, s.log[|base| + i], s, owners[i]); }
      }
    } else {
      now := owners;
      forall i | 0 <= i < |now| ensures RowRecordedBy(policy, s'.log[|base| + i], s', now[i]) {
        assert RowRecordedBy(policy, s.log[|base| + i], s, owners[i]);
      }
    }
  }

  /**
   * In every interleaving the log is the initial one plus exactly one row, with its
   * kind, grant and version, for each record command that committed, and none for
   * one that was aborted or is unfinished.
   */
  lemma LogIsWhatCommitted(policy: Policy, s: State, steps: seq<Step>) returns (owners: seq<nat>)
    requires Initial(s)
    ensures LogOf(policy, s.log, Run(policy, s, steps), owners)
  {
    owners := RunRecords(policy, s.log, s, [], steps);
  }

  /** Discovery is what the commit of a settings change or of a withdrawal makes it, and nothing else changes it. */
  lemma DiscoveryFollowsCommits(policy: Policy, s: State, steps: seq<Step>, step: Step, t: nat)
    requires Initial(s)
    requires var r := Run(policy, s, steps); !HasCommitted(r, t) && HasCommitted(Apply(policy, r, step), t)
    ensures var r, r' := Run(policy, s, steps), Apply(policy, Run(policy, s, steps), step);
            match r'.txns[t].command
            case Update(Some(v)) => r'.discovery == Some(v)
            case Update(None) => r'.discovery == r.discovery
            case Record(kind, granted, _) =>
              r'.discovery == if !granted && (kind.Terms? || kind.Privacy?) && r.discovery.Some? then Some(false) else r.discovery
  {
    RunKeepsInv(policy, s, steps);
    var r := Run(policy, s, steps);
    StepTouchesOne(policy, r, step);
    CommitSetsDiscovery(policy, r, t, step.stamp);
  }

  lemma CommitSetsDiscovery(policy: Policy, s: State, t: nat, stamp: Stamp)
    requires t in s.txns && TxnInv(policy, s, s.txns[t]) && !HasCommitted(s, t)
    requires HasCommitted(AdvanceTxn(policy, s, t, stamp), t)
    ensures AdvanceTxn(policy, s, t, stamp).discovery ==
            match s.txns[t].command
            case Update(Some(v)) => Some(v)
            case Update(None) => s.discovery
            case Record(kind, granted, _) =>
              if !granted && (kind.Terms? || kind.Privacy?) && s.discovery.Some? then Some(false) else s.discovery
  {
  }

  lemma OnlyCommitsChangeDiscovery(policy: Policy, s: State, step: Step)
    ensures Apply(policy, s, step).discovery != s.discovery ==>
              step.Advance? && !HasCommitted(s, step.id) && HasCommitted(Apply(policy, s, step), step.id)
  {
  }

  /** Whoever commits an enabling did so over a log in which both consents were granted. */
  lemma {:induction false} EnableCommitsGranted(policy: Policy, s: State, steps: seq<Step>, t: nat) returns (log: seq<ConsentEvent>)
    requires Inv(policy, s) && !HasCommitted(s, t) && HasCommitted(Run(policy, s, steps), t)
    requires Run(policy, s, steps).txns[t].command == Update(Some(true))
    ensures s.log <= log <= Run(policy, s, steps).log && RequiredConsentsGranted(policy, log)
    decreases |steps|
  {
    var s' := Apply(policy, s, steps[0]);
    StepAppends(policy, s, steps[0]);
    StepKeepsInv(policy, s, steps[0]);
    RunExtendsLog(policy, s', steps[1..], t);
    if HasCommitted(s', t) {
      CommitOfEnabling(policy, s, steps[0], t);
      return s.log;
    }
    log := EnableCommitsGranted(policy, s', steps[1..], t);
  }

  lemma CommitOfEnabling(policy: Policy, s: State, step: Step, t: nat)
    requires Inv(policy, s) && !HasCommitted(s, t) && HasCommitted(Apply(policy, s, step), t)
    requires Apply(policy, s, step).txns[t].command == Update(Some(true))
    ensures RequiredConsentsGranted(policy, s.log)
  {
    StepTouchesOne(policy, s, step);
    assert TxnInv(policy, s, s.txns[t]);
  }

  lemma {:induction false} RunExtendsLog(policy: Policy, s: State, steps: seq<Step>, t: nat)
    requires Inv(policy, s)
    ensures s.log <= Run(policy, s, steps).log
    ensures t in s.txns ==> t in Run(policy, s, steps).txns && Run(policy, s, steps).txns[t].command == s.txns[t].command
    decreases |steps|
  {
    if steps != [] {
      StepAppends(policy, s, steps[0]);
      StepKeepsInv(policy, s, steps[0]);
      RunExtendsLog(policy, Apply(policy, s, steps[0]), steps[1..], t);
    }
  }

  /** The `i`-th event is strictly newer than every other event of its type. */
  predicate Newest(log: seq<ConsentEvent>, i: int)
    requires 0 <= i < |log|
  {
    forall j :: 0 <= j < |log| && j != i && log[j].kind == log[i].kind ==>
                  || log[j].createdAt < log[i].createdAt
                  || (log[j].createdAt == log[i].createdAt && log[j].id < log[i].id)
  }

  /**
   * A committed withdrawal of a required consent is in the log, and once it is the
   * newest of its type, discovery can only be enabled again after a later grant of
   * that very consent at the current version.
   */
  lemma WithdrawalBlocksEnabling(policy: Policy, s: State, before: seq<Step>, w: nat, after: seq<Step>, t: nat) returns (i: nat)
    requires Initial(s) && HasCommitted(Run(policy, s, before), w)
    requires var c := Run(policy, s, before).txns[w].command; c.Record? && !c.granted && (c.kind.Terms? || c.kind.Privacy?)
    requires !HasCommitted(Run(policy, s, before), t)
    requires var end := Run(policy, Run(policy, s, before), after);
             HasCommitted(end, t) && end.txns[t].command == Update(Some(true))
    ensures var r, end := Run(policy, s, before), Run(policy, Run(policy, s, before), after);
            && i < |r.log| && IsRowOf(policy, r.log[i], r.txns[w].command)
            && (Newest(r.log, i) ==> exists j :: |r.log| <= j < |end.log| && Regrants(policy, end.log[j], r.log[i].kind))
  {
    RunKeepsInv(policy, s, before);
    var r := Run(policy, s, before);
    i := RowOfCommitted(policy, s, before, w);
    if Newest(r.log, i) { EnablingNeedsRegrant(policy, r, i, after, t); }
  }

  lemma RowOfCommitted(policy: Policy, s: State, steps: seq<Step>, t: nat) returns (i: nat)
    requires Initial(s) && Recorded(Run(policy, s, steps), t)
    ensures var r := Run(policy, s, steps); i < |r.log| && IsRowOf(policy, r.log[i], r.txns[t].command)
  {
    var owners := LogIsWhatCommitted(policy, s, steps);
    var o :| 0 <= o < |owners| && owners[o] == t;
    i := |s.log| + o;
    assert RowRecordedBy(policy, Run(policy, s, steps).log[i], Run(policy, s, steps), owners[o]);
  }

  lemma EnablingNeedsRegrant(policy: Policy, s: State, i: nat, steps: seq<Step>, t: nat)
    requires Inv(policy, s) && i < |s.log| && Newest(s.log, i) && !s.log[i].granted && Required(s.log[i].kind)
    requires !HasCommitted(s, t) && HasCommitted(Run(policy, s, steps), t)
    requires Run(policy, s, steps).txns[t].command == Update(Some(true))
    ensures var end := Run(policy, s, steps); exists j :: |s.log| <= j < |end.log| && Regrants(policy, end.log[j], s.log[i].kind)
  {
    var log := EnableCommitsGranted(policy, s, steps, t);
    GrantIsLater(policy, s.log, log, i);
    var j :| |s.log| <= j < |log| && Regrants(policy, log[j], s.log[i].kind);
    assert Run(policy, s, steps).log[j] == log[j];
  }

  predicate Regrants(policy: Policy, e: ConsentEvent, kind: ConsentType)
    requires kind.Terms? || kind.Privacy?
  {
    e.kind == kind && e.granted && e.version == CurrentVersion(policy, kind)
  }

  lemma GrantIsLater(policy: Policy, log: seq<ConsentEvent>, more: seq<ConsentEvent>, i: nat)
    requires log <= more && i < |log| && Newest(log, i) && !log[i].granted && Required(log[i].kind)
    requires RequiredConsentsGranted(policy, more)
    ensures exists j :: |log| <= j < |more| && Regrants(policy, more[j], log[i].kind)
  {
    var kind := log[i].kind;
    GrantStands(policy, more, kind);
    var j :| 0 <= j < |more| && Stands(more, j, kind, CurrentVersion(policy, kind));
    assert more[i] == log[i];
    assert forall k :: 0 <= k < |log| ==> more[k] == log[k];
    assert Regrants(policy, more[j], kind);
  }

  // ----- A command that runs alone -----

  /** The state after `n` steps of a command that nobody interrupts. */
  function Alone(policy: Policy, s: State, t: nat, stamp: Stamp, n: nat): State
    decreases n
  {
    if n == 0 then s else Alone(policy, Apply(policy, s, Advance(t, stamp)), t, stamp, n - 1)
  }

  /** No two events of a type have the same reading and id. */
  predicate DistinctStamps(log: seq<ConsentEvent>) {
    forall i, j :: 0 <= i < j < |log| && log[i].kind == log[j].kind ==>
                     log[i].createdAt != log[j].createdAt || log[i].id != log[j].id
  }

  predicate HasStanding(log: seq<ConsentEvent>, kind: ConsentType, version: string) {
    exists i :: 0 <= i < |log| && Stands(log, i, kind, version)
  }

  lemma GrantedExactlyWhenStanding(policy: Policy, log: seq<ConsentEvent>, kind: ConsentType)
    requires (kind.Terms? || kind.Privacy?) && DistinctStamps(log)
    ensures GrantedNow(policy, log, kind) <==> HasStanding(log, kind, CurrentVersion(policy, kind))
  {
    LatestIsNewest(log, kind);
    if GrantedNow(policy, log, kind) {
      GrantStands(policy, log, kind);
    }
    if i :| 0 <= i < |log| && Stands(log, i, kind, CurrentVersion(policy, kind)) {
      var k :| 0 <= k < |log| && log[k] == Latest(log, kind).value;
      assert k == i;
    }
  }

  /**
   * Nobody in the way, a record commits exactly when its version is current, an
   * enabling exactly when there are settings and both consents stand, and any
   * other change exactly when there are settings.
   */
  lemma AloneItCommits(policy: Policy, s: State, t: nat, stamp: Stamp)
    requires t in s.txns && s.txns[t].phase.Begin? && s.locks == map[] && DistinctStamps(s.log)
    ensures var r := Alone(policy, s, t, stamp, 6);
            HasCommitted(r, t) <==>
            match s.txns[t].command
            case Record(Terms, _, version) => version == policy.terms
            case Record(Privacy, _, version) => version == policy.privacy
            case Record(_, _, _) => true
            case Update(Some(true)) => s.discovery.Some? && HasStanding(s.log, Terms, policy.terms)
                                       && HasStanding(s.log, Privacy, policy.privacy)
            case Update(_) => s.discovery.Some?
  {
    GrantedExactlyWhenStanding(policy, s.log, Terms);
    GrantedExactlyWhenStanding(policy, s.log, Privacy);
    match s.txns[t].command
    case Record(_, _, _) => AloneRecord(policy, s, t, stamp);
    case Update(Some(true)) => AloneEnable(policy, s, t, stamp);
    case Update(_) => AloneUpdate(policy, s, t, stamp);
  }

  lemma {:induction false} FinishedRests(policy: Policy, s: State, t: nat, stamp: Stamp, n: nat)
    requires t in s.txns && Finished(s.txns[t])
    ensures Alone(policy, s, t, stamp, n) == s
    decreases n
  {
    if n > 0 { FinishedRests(policy, s, t, stamp, n - 1); }
  }

  lemma AloneRecord(policy: Policy, s: State, t: nat, stamp: Stamp)
    requires t in s.txns && s.txns[t].phase.Begin? && s.locks == map[] && s.txns[t].command.Record?
    ensures HasCommitted(Alone(policy, s, t, stamp, 6), t) <==> IsCurrent(policy, s.txns[t].command.kind, s.txns[t].command.version)
  {
    var s1 := Apply(policy, s, Advance(t, stamp));
    assert s1 == FirstStep(policy, s, t);
    if s1.txns[t].phase.RecordLocked? {
      var s2 := Apply(policy, s1, Advance(t, stamp));
      assert s2.txns[t].phase.Appended? && SettingsRow !in s2.locks;
      AloneFromAppended(policy, s2, t, stamp);
    } else {
      FinishedRests(policy, s1, t, stamp, 5);
    }
  }

  lemma AloneFromAppended(policy: Policy, s: State, t: nat, stamp: Stamp)
    requires t in s.txns && s.txns[t].phase.Appended? && SettingsRow !in s.locks
    ensures HasCommitted(Alone(policy, s, t, stamp, 4), t)
  {
    var s1 := Apply(policy, s, Advance(t, stamp));
    if s1.txns[t].phase.Withdrawing? {
      var s2 := Apply(policy, s1, Advance(t, stamp));
      assert Alone(policy, s1, t, stamp, 3) == Alone(policy, s2, t, stamp, 2);
      FinishedRests(policy, s2, t, stamp, 2);
    } else {
      FinishedRests(policy, s1, t, stamp, 3);
    }
  }

  /** From the lock of the settings row on, every settings change goes through. */
  lemma AloneFromRow(policy: Policy, s: State, t: nat, stamp: Stamp, n: nat)
    requires t in s.txns && s.txns[t].phase.RowRead? && n >= 2
    ensures HasCommitted(Alone(policy, s, t, stamp, n), t)
  {
    var s1 := Apply(policy, s, Advance(t, stamp));
    assert s1.txns[t].phase.Saving?;
    var s2 := Apply(policy, s1, Advance(t, stamp));
    assert Alone(policy, s, t, stamp, n) == Alone(policy, s1, t, stamp, n - 1) == Alone(policy, s2, t, stamp, n - 2);
    FinishedRests(policy, s2, t, stamp, n - 2);
  }

  lemma AloneUpdate(policy: Policy, s: State, t: nat, stamp: Stamp)
    requires t in s.txns && s.txns[t].phase.Begin? && s.locks == map[]
    requires s.txns[t].command.Update? && !Enables(s.txns[t].command)
    ensures HasCommitted(Alone(policy, s, t, stamp, 6), t) <==> s.discovery.Some?
  {
    var s1 := Apply(policy, s, Advance(t, stamp));
    assert s1 == LockRow(s, t);
    if s.discovery.Some? { AloneFromRow(policy, s1, t, stamp, 5); } else { FinishedRests(policy, s1, t, stamp, 5); }
  }

  lemma AloneEnable(policy: Policy, s: State, t: nat, stamp: Stamp)
    requires t in s.txns && s.txns[t].phase.Begin? && s.locks == map[] && Enables(s.txns[t].command)
    ensures HasCommitted(Alone(policy, s, t, stamp, 6), t) <==>
              s.discovery.Some? && GrantedNow(policy, s.log, Terms) && GrantedNow(policy, s.log, Privacy)
  {
    var s1 := Apply(policy, s, Advance(t, stamp));
    assert s1.txns[t].phase.TermsLocked?;
    var s2 := Apply(policy, s1, Advance(t, stamp));
    assert s2.txns[t].phase.BothLocked? && s2.log == s.log && s2.discovery == s.discovery && SettingsRow !in s2.locks;
    assert Alone(policy, s, t, stamp, 6) == Alone(policy, s1, t, stamp, 5) == Alone(policy, s2, t, stamp, 4);
    AloneFromLocks(policy, s2, t, stamp);
  }

  lemma AloneFromLocks(policy: Policy, s: State, t: nat, stamp: Stamp)
    requires t in s.txns && s.txns[t].phase.BothLocked? && SettingsRow !in s.locks
    ensures HasCommitted(Alone(policy, s, t, stamp, 4), t) <==>
              s.discovery.Some? && GrantedNow(policy, s.log, Terms) && GrantedNow(policy, s.log, Privacy)
  {
    var s1 := Apply(policy, s, Advance(t, stamp));
    if RequiredConsentsGranted(policy, s.log) {
      var s2 := Apply(policy, s1, Advance(t, stamp));
      assert s2 == LockRow(s1, t);
      assert Alone(policy, s1, t, stamp, 3) == Alone(policy, s2, t, stamp, 2);
      if s.discovery.Some? { AloneFromRow(policy, s2, t, stamp, 2); } else { FinishedRests(policy, s2, t, stamp, 2); }
    } else {
      FinishedRests(policy, s1, t, stamp, 3);
    }
  }

  // ----- The latest event is the last one appended -----

  function LastAppended(log: seq<ConsentEvent>, kind: ConsentType): Option<ConsentEvent> {
    if log == [] then None
    else if log[|log| - 1].kind == kind then Some(log[|log| - 1])
    else LastAppended(log[..|log| - 1], kind)
  }

  /** Events of one type were appended in the order of their clock readings. */
  predicate LogRises(log: seq<ConsentEvent>) {
    forall i, j :: 0 <= i < j < |log| && log[i].kind == log[j].kind ==> log[i].createdAt < log[j].createdAt
  }

  lemma {:induction false} RisingLogEndsWithLatest(log: seq<ConsentEvent>, kind: ConsentType)
    requires LogRises(log)
    ensures Latest(log, kind) == LastAppended(log, kind)
  {
    if log != [] {
      var init := log[..|log| - 1];
      RisingLogEndsWithLatest(init, kind);
      LatestIsNewest(init, kind);
    }
  }

  /** The clock has not gone back so far: every reading is before `now`, and a buffered event is the newest of its type. */
  predicate Chronological(s: State, now: int) {
    && LogRises(s.log)
    && (forall i :: 0 <= i < |s.log| ==> s.log[i].createdAt < now)
    && (forall t :: t in s.txns && Pending(s.txns[t]) ==> NewestOfType(s.log, s.txns[t].phase.event, now))
  }

  predicate NewestOfType(log: seq<ConsentEvent>, e: ConsentEvent, now: int) {
    e.createdAt < now && forall i :: 0 <= i < |log| && log[i].kind == e.kind ==> log[i].createdAt < e.createdAt
  }

  function After(step: Step, now: int): int { if step.Advance? then step.stamp.now + 1 else now }

  /** A step that commits no event buffers at most one, with its own stamp. */
  lemma PendingAfter(policy: Policy, s: State, step: Step, t: nat)
    requires !(step.Advance? && step.id in s.txns && Pending(s.txns[step.id]))
    requires t in Apply(policy, s, step).txns && Pending(Apply(policy, s, step).txns[t])
    ensures var e := Apply(policy, s, step).txns[t].phase.event;
            || (t in s.txns && Pending(s.txns[t]) && s.txns[t].phase.event == e)
            || (step.Advance? && e.createdAt == step.stamp.now)
  {
    if step.Advance? && step.id in s.txns { AdvanceFrame(policy, s, step.id, step.stamp, t); }
  }

  /** A step leaves the other transactions alone, and fills its own buffer with its own stamp. */
  lemma AdvanceFrame(policy: Policy, s: State, id: nat, stamp: Stamp, t: nat)
    requires id in s.txns && !Pending(s.txns[id])
    ensures var s' := AdvanceTxn(policy, s, id, stamp);
            && s'.txns.Keys == s.txns.Keys
            && (t in s.txns && t != id ==> s'.txns[t] == s.txns[t])
            && (Pending(s'.txns[id]) ==> s'.txns[id].phase.event.createdAt == stamp.now)
  {
    AdvanceTouchesOne(policy, s, id, stamp);
  }

  lemma OnlyPendingCommits(policy: Policy, s: State, step: Step)
    requires !(step.Advance? && step.id in s.txns && Pending(s.txns[step.id]))
    ensures Apply(policy, s, step).log == s.log
  {
  }

  lemma StepKeepsChronological(policy: Policy, s: State, step: Step, now: int)
    requires Inv(policy, s) && Chronological(s, now) && (step.Advance? ==> step.stamp.now >= now)
    ensures Chronological(Apply(policy, s, step), After(step, now))
  {
    if step.Advance? && step.id in s.txns && Pending(s.txns[step.id]) {
      CommitKeepsChronological(policy, s, step, now);
    } else {
      var s' := Apply(policy, s, step);
      OnlyPendingCommits(policy, s, step);
      forall t | t in s'.txns && Pending(s'.txns[t]) ensures NewestOfType(s'.log, s'.txns[t].phase.event, After(step, now)) {
        PendingAfter(policy, s, step, t);
        assert t in s.txns && Pending(s.txns[t]) ==> NewestOfType(s.log, s.txns[t].phase.event, now);
      }
    }
  }

  /** The lock of a type lets one recorder at a time stamp and commit its event. */
  lemma CommitKeepsChronological(policy: Policy, s: State, step: Step, now: int)
    requires Inv(policy, s) && Chronological(s, now) && step.Advance? && step.stamp.now >= now
    requires step.id in s.txns && Pending(s.txns[step.id])
    ensures Chronological(Apply(policy, s, step), After(step, now))
  {
    var s', e := Apply(policy, s, step), s.txns[step.id].phase.event;
    assert s'.log == s.log || s'.log == s.log + [e];
    forall t | t in s'.txns && Pending(s'.txns[t]) ensures NewestOfType(s'.log, s'.txns[t].phase.event, After(step, now)) {
      assert s'.txns[t].phase.event == s.txns[t].phase.event && NewestOfType(s.log, s.txns[t].phase.event, now);
      if t != step.id { RecorderExcludesEnable(policy, s, step.id, t); }
    }
  }

  predicate Rising(steps: seq<Step>, now: int)
    decreases |steps|
  {
    steps == [] || ((steps[0].Advance? ==> steps[0].stamp.now >= now) && Rising(steps[1..], After(steps[0], now)))
  }

  /** While the database clock does not go back, the latest event of each type is the one appended last. */
  lemma {:induction false} LatestIsLastAppended(policy: Policy, s: State, steps: seq<Step>, now: int, kind: ConsentType)
    requires Inv(policy, s) && Chronological(s, now) && Rising(steps, now)
    ensures Latest(Run(policy, s, steps).log, kind) == LastAppended(Run(policy, s, steps).log, kind)
    decreases |steps|
  {
    if steps == [] {
      RisingLogEndsWithLatest(s.log, kind);
    } else {
      StepKeepsChronological(policy, s, steps[0], now);
      StepKeepsInv(policy, s, steps[0]);
      LatestIsLastAppended(policy, Apply(policy, s, steps[0]), steps[1..], After(steps[0], now), kind);
    }
  }

  // ----- Deadlock -----

  /** The lock the next step of the transaction asks for, if any. */
  function Wanted(policy: Policy, s: State, x: Txn): Option<Lock> {
    match x.phase
    case Begin =>
      if x.command.Record? then
        if IsCurrent(policy, x.command.kind, x.command.version) then Some(ConsentLock(x.command.kind)) else None
      else if Enables(x.command) then Some(ConsentLock(Terms))
      else if s.discovery.Some? then Some(SettingsRow) else None
    case TermsLocked => Some(ConsentLock(Privacy))
    case ConsentsChecked => if s.discovery.Some? then Some(SettingsRow) else None
    case Appended(_) => if Withdraws(x.command) && s.discovery.Some? then Some(SettingsRow) else None
    case _ => None
  }

  predicate WaitsFor(policy: Policy, s: State, t: nat, u: nat) {
    && t in s.txns
    && var l := Wanted(policy, s, s.txns[t]); l.Some? && l.value in s.locks && s.locks[l.value] == u
  }

  function Highest(x: Txn): nat {
    var h := Held(x);
    if SettingsRow in h then 4
    else if ConsentLock(Marketing) in h || ConsentLock(LocationProcessing) in h then 3
    else if ConsentLock(Privacy) in h then 2
    else if ConsentLock(Terms) in h then 1 else 0
  }

  /** Locks are asked for in increasing rank, so a waiter ranks below the one it waits for. */
  lemma WaitingClimbs(policy: Policy, s: State, t: nat, u: nat)
    requires Inv(policy, s) && WaitsFor(policy, s, t, u)
    ensures u in s.txns && Highest(s.txns[t]) < Highest(s.txns[u])
  {
    assert TxnInv(policy, s, s.txns[t]);
    var l := Wanted(policy, s, s.txns[t]).value;
    assert l in Held(s.txns[u]);
  }

  lemma {:induction false} WaitChainClimbs(policy: Policy, s: State, chain: seq<nat>)
    requires Inv(policy, s) && |chain| >= 2
    requires forall i :: 0 <= i < |chain| - 1 ==> WaitsFor(policy, s, chain[i], chain[i + 1])
    ensures chain[0] in s.txns && chain[|chain| - 1] in s.txns
    ensures Highest(s.txns[chain[0]]) < Highest(s.txns[chain[|chain| - 1]])
    decreases |chain|
  {
    WaitingClimbs(policy, s, chain[0], chain[1]);
    if |chain| > 2 {
      forall i | 0 <= i < |chain[1..]| - 1
        ensures WaitsFor(policy, s, chain[1..][i], chain[1..][i + 1])
      {
        assert WaitsFor(policy, s, chain[i + 1], chain[i + 2]);
      }
      WaitChainClimbs(policy, s, chain[1..]);
    }
  }

  /** No reachable state has a deadlock cycle, of whatever length. */
  lemma NoDeadlockCycle(policy: Policy, s: State, steps: seq<Step>, chain: seq<nat>)
    requires Initial(s) && |chain| >= 2
    requires forall i :: 0 <= i < |chain| - 1 ==> WaitsFor(policy, Run(policy, s, steps), chain[i], chain[i + 1])
    ensures chain[0] != chain[|chain| - 1]
  {
    RunKeepsInv(policy, s, steps);
    WaitChainClimbs(policy, Run(policy, s, steps), chain);
  }

  predicate Blocked(policy: Policy, s: State, t: nat)
    requires t in s.txns
  {
    var l := Wanted(policy, s, s.txns[t]);
    l.Some? && l.value in s.locks
  }

  lemma {:induction false} SomeoneRuns(policy: Policy, s: State, t: nat) returns (free: nat)
    requires Inv(policy, s) && t in s.txns && !Finished(s.txns[t])
    ensures free in s.txns && !Finished(s.txns[free]) && !Blocked(policy, s, free)
    decreases 4 - Highest(s.txns[t])
  {
    if Blocked(policy, s, t) {
      var u := s.locks[Wanted(policy, s, s.txns[t]).value];
      WaitingClimbs(policy, s, t, u);
      free := SomeoneRuns(policy, s, u);
    } else {
      free := t;
    }
  }

  /** An unfinished transaction that waits for nobody really moves when it is scheduled. */
  lemma UnblockedMoves(policy: Policy, s: State, t: nat, stamp: Stamp)
    requires Inv(policy, s) && t in s.txns && !Finished(s.txns[t]) && !Blocked(policy, s, t)
    ensures Apply(policy, s, Advance(t, stamp)).txns[t].phase != s.txns[t].phase
  {
    assert TxnInv(policy, s, s.txns[t]);
  }

  /** As long as a transaction is unfinished, some transaction can take a step. */
  lemma NoDeadlock(policy: Policy, s: State, steps: seq<Step>, t: nat, stamp: Stamp) returns (free: nat)
    requires Initial(s)
    requires t in Run(policy, s, steps).txns && !Finished(Run(policy, s, steps).txns[t])
    ensures var r := Run(policy, s, steps);
            free in r.txns && Apply(policy, r, Advance(free, stamp)).txns[free].phase != r.txns[free].phase
  {
    RunKeepsInv(policy, s, steps);
    free := SomeoneRuns(policy, Run(policy, s, steps), t);
    UnblockedMoves(policy, Run(policy, s, steps), free, stamp);
  }
}
