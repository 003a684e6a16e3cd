/**
 * The message log of one chat room: a gapless, idempotent append serialised by
 * the room's row lock, and keyset paging over the log while it grows.
 */
module ChatLog {
  import opened Common

  type User = nat

  datatype Message = Message(seqNo: int, sender: User, clientId: string, body: string)

  /** `Inserted` holds a row that only this transaction sees. */
  datatype Phase =
    | Begin
    | Locked
    | MemberChecked
    | NotFound
    | Found(message: Message)
    | Inserted(message: Message)
    | Committed(message: Message, created: bool)
    | Aborted

  datatype Txn = Txn(sender: User, clientId: string, body: string, phase: Phase)

  /** The room row, its committed messages and active members, the row lock, the running sends. */
  datatype State = State(
    lastSeq: int, log: seq<Message>, members: set<User>, lock: Option<nat>, txns: map<nat, Txn>)

  /** `Join` and `Leave` are membership changes by other transactions, at any moment. */
  datatype Step =
    | Start(id: nat, sender: User, clientId: string, body: string)
    | Advance(id: nat)
    | Abort(id: nat)
    | Join(user: User)
    | Leave(user: User)

  predicate SameKey(m: Message, x: Txn) { m.sender == x.sender && m.clientId == x.clientId }

  function FindByClientMessageId(log: seq<Message>, x: Txn): (r: Option<Message>)
    ensures r.Some? ==> r.value in log && SameKey(r.value, x)
    ensures r.None? ==> forall i :: 0 <= i < |log| ==> !SameKey(log[i], x)
  {
    if log == [] then None
    else if SameKey(log[0], x) then Some(log[0])
    else FindByClientMessageId(log[1..], x)
  }

  function SetPhase(s: State, t: nat, p: Phase): State
    requires t in s.txns
  {
    s.(txns := s.txns[t := s.txns[t].(phase := p)])
  }

  function Finish(s: State, t: nat, p: Phase): State
    requires t in s.txns
  {
    SetPhase(s, t, p).(lock := if s.lock == Some(t) then None else s.lock)
  }

  /** One statement of `sendTextMessage`; the insert trigger takes `lastSeq + 1`. */
  function AdvanceTxn(s: State, t: nat): State
    requires t in s.txns
  {
    var x := s.txns[t];
    match x.phase
    case Begin => if s.lock.Some? then s else SetPhase(s, t, Locked).(lock := Some(t))
    case Locked => if x.sender in s.members then SetPhase(s, t, MemberChecked) else Finish(s, t, Aborted)
    case MemberChecked =>
      var existing := FindByClientMessageId(s.log, x);
      SetPhase(s, t, if existing.Some? then Found(existing.value) else NotFound)
    case NotFound => SetPhase(s, t, Inserted(Message(s.lastSeq + 1, x.sender, x.clientId, x.body)))
    case Found(m) => Finish(s, t, Committed(m, false))
    case Inserted(m) => Finish(s, t, Committed(m, true)).(lastSeq := m.seqNo, log := s.log + [m])
    case Committed(_, _) => s
    case Aborted => s
  }

  predicate Finished(x: Txn) { x.phase.Committed? || x.phase.Aborted? }

  function Apply(s: State, step: Step): State {
    match step
    case Start(t, u, c, b) => if t in s.txns then s else s.(txns := s.txns[t := Txn(u, c, b, Begin)])
    case Advance(t) => if t in s.txns then AdvanceTxn(s, t) else s
    case Abort(t) => if t in s.txns && !Finished(s.txns[t]) then Finish(s, t, Aborted) else s
    case Join(u) => s.(members := s.members + {u})
    case Leave(u) => s.(members := s.members - {u})
  }

  function Run(s: State, steps: seq<Step>): State
    decreases |steps|
  {
    if steps == [] then s else Run(Apply(s, steps[0]), steps[1..])
  }

  const EMPTY: State := State(0, [], {}, None, map[])

  // ----- Invariant -----

  predicate HoldsLock(x: Txn) { !x.phase.Begin? && !Finished(x) }

  predicate Gapless(log: seq<Message>) {
    forall i :: 0 <= i < |log| ==> log[i].seqNo == i + 1
  }

  predicate KeysDistinct(log: seq<Message>) {
    forall i, j :: 0 <= i < j < |log| ==> log[i].sender != log[j].sender || log[i].clientId != log[j].clientId
  }

  predicate NoSuchKey(log: seq<Message>, x: Txn) {
    forall i :: 0 <= i < |log| ==> !SameKey(log[i], x)
  }

  predicate TxnInv(s: State, x: Txn) {
    match x.phase
    case NotFound => NoSuchKey(s.log, x)
    case Found(m) => m in s.log && SameKey(m, x)
    case Inserted(m) => NoSuchKey(s.log, x) && m == Message(s.lastSeq + 1, x.sender, x.clientId, x.body)
    case Committed(m, created) => m in s.log && SameKey(m, x) && (created ==> m.body == x.body)
    case _ => true
  }

  predicate Created(x: Txn) { x.phase.Committed? && x.phase.created }

  predicate IsCreator(s: State, t: nat, m: Message) {
    t in s.txns && Created(s.txns[t]) && s.txns[t].phase.message == m
  }

  /** Every message was created by one send and by no other. */
  ghost predicate CreatedOnce(s: State) {
    && (forall t, u :: t in s.txns && u in s.txns && Created(s.txns[t]) && Created(s.txns[u]) ==>
          s.txns[t].phase.message != s.txns[u].phase.message || t == u)
    && (forall m :: m in s.log ==> exists t :: IsCreator(s, t, m))
  }

  ghost predicate Inv(s: State) {
    && s.lastSeq == |s.log|
    && Gapless(s.log)
    && KeysDistinct(s.log)
    && CreatedOnce(s)
    && (forall t :: t in s.txns && HoldsLock(s.txns[t]) ==> s.lock == Some(t))
    && forall t :: t in s.txns ==> TxnInv(s, s.txns[t])
  }

  lemma PrivateStepKeepsInv(s: State, s': State, t: nat, p: Phase)
    requires Inv(s) && t in s.txns && !Finished(s.txns[t])
    requires s' == SetPhase(s, t, p).(lock := s'.lock)
    requires p.Begin? || p.Aborted? || (p.Committed? && !p.created) || s'.lock == Some(t)
    requires s'.lock == s.lock || s.lock in {None, Some(t)}
    requires TxnInv(s, s.txns[t].(phase := p)) && !Created(s.txns[t].(phase := p))
    requires p.Begin? ==> s.txns[t].phase.Begin?
    ensures Inv(s')
  {
    forall u | u in s'.txns ensures TxnInv(s', s'.txns[u]) {
      if u != t { assert TxnInv(s, s.txns[u]); }
    }
    forall m | m in s'.log ensures exists u :: IsCreator(s', u, m) {
      var u :| IsCreator(s, u, m);
      assert IsCreator(s', u, m);
    }
  }

  lemma CommitKeepsInv(s: State, t: nat)
    requires Inv(s) && t in s.txns && s.txns[t].phase.Inserted?
    ensures Inv(AdvanceTxn(s, t))
  {
    var m := s.txns[t].phase.message;
    var s' := AdvanceTxn(s, t);
    assert TxnInv(s, s.txns[t]);
    forall n | n in s'.log ensures exists u :: IsCreator(s', u, n) {
      if n == m {
        assert IsCreator(s', t, n);
      } else {
        assert n in s.log;
        var u :| IsCreator(s, u, n);
        assert IsCreator(s', u, n);
      }
    }
    assert m !in s.log;
    forall u | u in s'.txns ensures TxnInv(s', s'.txns[u]) {
      if u != t { assert TxnInv(s, s.txns[u]); }
    }
  }

  lemma AdvanceKeepsInv(s: State, t: nat)
    requires Inv(s) && t in s.txns
    ensures Inv(AdvanceTxn(s, t))
  {
    assert TxnInv(s, s.txns[t]);
    if s.txns[t].phase.Inserted? {
      CommitKeepsInv(s, t);
    } else if AdvanceTxn(s, t) != s {
      PrivateStepKeepsInv(s, AdvanceTxn(s, t), t, AdvanceTxn(s, t).txns[t].phase);
    }
  }

  lemma StepKeepsInv(s: State, step: Step)
    requires Inv(s)
    ensures Inv(Apply(s, step)) && s.log <= Apply(s, step).log
  {
    match step
    case Start(t, u, c, b) =>
      if t !in s.txns { StartKeepsInv(s, t, Txn(u, c, b, Begin)); }
    case Advance(t) => if t in s.txns { AdvanceKeepsInv(s, t); }
    case Abort(t) =>
      if t in s.txns && !Finished(s.txns[t]) { PrivateStepKeepsInv(s, Finish(s, t, Aborted), t, Aborted); }
    case Join(u) => MembersAreFree(s, s.members + {u});
    case Leave(u) => MembersAreFree(s, s.members - {u});
  }

  lemma MembersAreFree(s: State, members: set<User>)
    requires Inv(s)
    ensures Inv(s.(members := members))
  {
    var s' := s.(members := members);
    forall u | u in s'.txns ensures TxnInv(s', s'.txns[u]) { assert TxnInv(s, s.txns[u]); }
    forall m | m in s'.log ensures exists u :: IsCreator(s', u, m) {
      var u :| IsCreator(s, u, m);
      assert IsCreator(s', u, m);
    }
  }

  lemma StartKeepsInv(s: State, t: nat, x: Txn)
    requires Inv(s) && t !in s.txns && x.phase.Begin?
    ensures Inv(s.(txns := s.txns[t := x]))
  {
    var s' := s.(txns := s.txns[t := x]);
    forall u | u in s'.txns ensures TxnInv(s', s'.txns[u]) {
      if u != t { assert TxnInv(s, s.txns[u]); }
    }
    forall m | m in s'.log ensures exists u :: IsCreator(s', u, m) {
      var u :| IsCreator(s, u, m);
      assert IsCreator(s', u, m);
    }
  }

  /** Every run keeps the invariant and only appends to the log. */
  lemma {:induction false} RunKeepsInv(s: State, steps: seq<Step>)
    requires Inv(s)
    ensures Inv(Run(s, steps)) && s.log <= Run(s, steps).log
    decreases |steps|
  {
    if steps != [] {
      StepKeepsInv(s, steps[0]);
      RunKeepsInv(Apply(s, steps[0]), steps[1..]);
    }
  }

  // ----- Sends -----

  /** In every interleaving the committed sequence numbers are exactly 1 to `lastSeq`. */
  lemma SequenceIsGapless(steps: seq<Step>)
    ensures var s := Run(EMPTY, steps);
            && |s.log| == s.lastSeq
            && forall i :: 0 <= i < |s.log| ==> s.log[i].seqNo == i + 1
  {
    RunKeepsInv(EMPTY, steps);
  }

  /** Retries: every committed send of one (sender, clientMessageId) returns the same message. */
  lemma RetriesReturnTheSameMessage(steps: seq<Step>, t: nat, u: nat)
    requires var s := Run(EMPTY, steps);
             && t in s.txns && u in s.txns
             && s.txns[t].phase.Committed? && s.txns[u].phase.Committed?
             && s.txns[t].sender == s.txns[u].sender && s.txns[t].clientId == s.txns[u].clientId
    ensures var s := Run(EMPTY, steps); s.txns[t].phase.message == s.txns[u].phase.message
    ensures var s := Run(EMPTY, steps); s.txns[t].phase.created && s.txns[u].phase.created ==> t == u
  {
    RunKeepsInv(EMPTY, steps);
    var s := Run(EMPTY, steps);
    assert TxnInv(s, s.txns[t]) && TxnInv(s, s.txns[u]);
    var i :| 0 <= i < |s.log| && s.log[i] == s.txns[t].phase.message;
    var j :| 0 <= j < |s.log| && s.log[j] == s.txns[u].phase.message;
  }

  /** Some send of the key reported `created`, so with the lemma above exactly one did. */
  lemma SomeSendCreated(steps: seq<Step>, t: nat) returns (creator: nat)
    requires t in Run(EMPTY, steps).txns && Run(EMPTY, steps).txns[t].phase.Committed?
    ensures var s := Run(EMPTY, steps);
            && creator in s.txns && Created(s.txns[creator])
            && s.txns[creator].sender == s.txns[t].sender && s.txns[creator].clientId == s.txns[t].clientId
            && s.txns[t].phase.message in s.log
            && s.txns[t].phase.message.sender == s.txns[t].sender && s.txns[t].phase.message.clientId == s.txns[t].clientId
            && s.txns[t].phase.message.body == s.txns[creator].body
  {
    RunKeepsInv(EMPTY, steps);
    var s := Run(EMPTY, steps);
    assert TxnInv(s, s.txns[t]);
    creator :| IsCreator(s, creator, s.txns[t].phase.message);
    assert TxnInv(s, s.txns[creator]);
  }

  /** A send that got past the membership check. */
  predicate PastCheck(s: State, t: nat) {
    && t in s.txns
    && (s.txns[t].phase.MemberChecked? || s.txns[t].phase.NotFound? || s.txns[t].phase.Found?
        || s.txns[t].phase.Inserted? || s.txns[t].phase.Committed?)
  }

  lemma StepPassesCheck(s: State, step: Step, t: nat)
    requires PastCheck(Apply(s, step), t)
    ensures t in s.txns ==> Apply(s, step).txns[t].sender == s.txns[t].sender
    ensures PastCheck(s, t) || (step == Advance(t) && t in s.txns && s.txns[t].phase.Locked? && s.txns[t].sender in s.members)
  {
  }

  lemma StepKeepsSender(s: State, step: Step, t: nat)
    requires t in s.txns
    ensures t in Apply(s, step).txns && Apply(s, step).txns[t].sender == s.txns[t].sender
  {
  }

  lemma {:induction false} RunKeepsSender(s: State, steps: seq<Step>, t: nat)
    requires t in s.txns
    ensures t in Run(s, steps).txns && Run(s, steps).txns[t].sender == s.txns[t].sender
    decreases |steps|
  {
    if steps != [] {
      StepKeepsSender(s, steps[0], t);
      RunKeepsSender(Apply(s, steps[0]), steps[1..], t);
    }
  }

  lemma {:induction false} CheckedAsMember(s: State, steps: seq<Step>, t: nat) returns (k: nat)
    requires PastCheck(Run(s, steps), t) && !PastCheck(s, t)
    ensures k < |steps| && steps[k] == Advance(t)
    ensures var r := Run(s, steps[..k]);
            t in r.txns && r.txns[t].phase.Locked? && r.txns[t].sender == Run(s, steps).txns[t].sender
            && r.txns[t].sender in r.members
    decreases |steps|
  {
    var s1 := Apply(s, steps[0]);
    if PastCheck(s1, t) {
      StepPassesCheck(s, steps[0], t);
      RunKeepsSender(s, steps, t);
      assert Run(s, steps[..0]) == s;
      return 0;
    }
    var j := CheckedAsMember(s1, steps[1..], t);
    assert steps[..j + 1][0] == steps[0] && steps[..j + 1][1..] == steps[1..][..j];
    return j + 1;
  }

  /**
   * Membership is enforced at the statement that checks it: every committed send,
   * new or repeated, has a moment in the run, under the room's lock, at which its
   * check ran and its sender was an active member.
   */
  lemma CommittedSendersWereMembers(steps: seq<Step>, t: nat) returns (k: nat)
    requires var s := Run(EMPTY, steps); t in s.txns && s.txns[t].phase.Committed?
    ensures k < |steps| && steps[k] == Advance(t)
    ensures var r := Run(EMPTY, steps[..k]);
            t in r.txns && r.lock == Some(t) && r.txns[t].sender == Run(EMPTY, steps).txns[t].sender
            && r.txns[t].sender in r.members
  {
    k := CheckedAsMember(EMPTY, steps, t);
    RunKeepsInv(EMPTY, steps[..k]);
  }

  // ----- A send that runs alone -----

  function Alone(s: State, t: nat, n: nat): State
    decreases n
  {
    if n == 0 then s else Alone(Apply(s, Advance(t)), t, n - 1)
  }

  lemma {:induction false} FinishedRests(s: State, t: nat, n: nat)
    requires t in s.txns && Finished(s.txns[t])
    ensures Alone(s, t, n) == s
    decreases n
  {
    if n > 0 { FinishedRests(s, t, n - 1); }
  }

  /** The key of the send already belongs to a stored message. */
  predicate KeyTaken(log: seq<Message>, x: Txn) {
    exists i :: 0 <= i < |log| && log[i].sender == x.sender && log[i].clientId == x.clientId
  }

  /** `r` is `s` after the send of `x` went through. */
  predicate WentThrough(s: State, x: Txn, r: State, t: nat) {
    && t in r.txns && r.txns[t].phase.Committed?
    && var m := r.txns[t].phase.message;
       if KeyTaken(s.log, x) then
         !r.txns[t].phase.created && r.log == s.log && m in s.log && m.sender == x.sender && m.clientId == x.clientId
       else
         r.txns[t].phase.created && r.log == s.log + [m] && m == Message(|s.log| + 1, x.sender, x.clientId, x.body)
  }

  /**
   * Nobody in the way, a stranger's send is refused and writes nothing, a repeated
   * one returns the stored message, and any other appends one message with the next
   * number, its sender, key and text.
   */
  lemma AloneItSends(s: State, t: nat)
    requires Inv(s) && t in s.txns && s.txns[t].phase.Begin? && s.lock.None?
    ensures var x, r := s.txns[t], Alone(s, t, 5);
            if x.sender in s.members then WentThrough(s, x, r, t)
            else t in r.txns && r.txns[t].phase == Aborted && r.log == s.log
  {
    var s1 := Apply(s, Advance(t));
    var s2 := Apply(s1, Advance(t));
    assert s1.txns[t].phase.Locked? && Alone(s, t, 5) == Alone(s1, t, 4) == Alone(s2, t, 3);
    if s2.txns[t].phase.Aborted? { FinishedRests(s2, t, 3); } else { AloneFromCheck(s2, t); }
  }

  lemma AloneFromCheck(s: State, t: nat)
    requires t in s.txns && s.txns[t].phase.MemberChecked? && s.lastSeq == |s.log|
    ensures WentThrough(s, s.txns[t], Alone(s, t, 3), t)
  {
    var s1 := Apply(s, Advance(t));
    var s2 := Apply(s1, Advance(t));
    assert Alone(s, t, 3) == Alone(s1, t, 2) == Alone(s2, t, 1);
    if KeyTaken(s.log, s.txns[t]) {
      assert s1.txns[t].phase.Found?;
      FinishedRests(s2, t, 1);
    } else {
      AloneFromNew(s1, t);
    }
  }

  lemma AloneFromNew(s: State, t: nat)
    requires t in s.txns && s.txns[t].phase.NotFound?
    ensures var x, r := s.txns[t], Alone(s, t, 2);
            var m := Message(s.lastSeq + 1, x.sender, x.clientId, x.body);
            t in r.txns && r.txns[t].phase == Committed(m, true) && r.log == s.log + [m]
  {
    var s1 := Apply(s, Advance(t));
    assert s1.txns[t].phase.Inserted?;
    assert Alone(s1, t, 1) == Alone(Apply(s1, Advance(t)), t, 0) == Apply(s1, Advance(t));
  }

  // ----- Paging -----

  datatype Page = Page(messages: seq<Message>, hasMore: bool)

  predicate Ascending(log: seq<Message>) {
    forall i, j :: 0 <= i < j < |log| ==> log[i].seqNo < log[j].seqNo
  }

  /** Messages after `after` that are not soft-deleted, oldest first. */
  function VisibleAfter(log: seq<Message>, deleted: set<int>, after: int): seq<Message> {
    if log == [] then []
    else
      var rest := VisibleAfter(log[1..], deleted, after);
      if log[0].seqNo > after && log[0].seqNo !in deleted then [log[0]] + rest else rest
  }

  /** Messages before `before` that are not soft-deleted, newest first. */
  function VisibleBefore(log: seq<Message>, deleted: set<int>, before: Option<int>): seq<Message> {
    if log == [] then []
    else
      var last := log[|log| - 1];
      var rest := VisibleBefore(log[..|log| - 1], deleted, before);
      if (before.None? || last.seqNo < before.value) && last.seqNo !in deleted then [last] + rest else rest
  }

  function Limit(rows: seq<Message>, n: nat): seq<Message> { if |rows| <= n then rows else rows[..n] }

  /** The LEFT JOIN: no row for a stranger, one empty row for a member with nothing to read. */
  function PageRows(member: bool, found: seq<Message>): seq<Option<Message>> {
    if !member then []
    else if found == [] then [None]
    else seq(|found|, i requires 0 <= i < |found| => Some(found[i]))
  }

  function RealRows(rows: seq<Option<Message>>): seq<Message> {
    if rows == [] then []
    else (if rows[0].Some? then [rows[0].value] else []) + RealRows(rows[1..])
  }

  datatype ChatError = ChatRoomNotFound

  function ToMessagePage(rows: seq<Option<Message>>, limit: nat): (r: Result<Page, ChatError>)
    ensures r.Ok? && r.value.hasMore ==> |r.value.messages| == limit
  {
    if rows == [] then Err(ChatRoomNotFound)
    else
      var messages := RealRows(rows);
      if |messages| > limit then Ok(Page(messages[..limit], true)) else Ok(Page(messages, false))
  }

  function ListMessagesAfter(s: State, deleted: set<int>, user: User, after: int, limit: nat): Result<Page, ChatError> {
    ToMessagePage(PageRows(user in s.members, Limit(VisibleAfter(s.log, deleted, after), limit + 1)), limit)
  }

  function ListMessagesBefore(s: State, deleted: set<int>, user: User, before: Option<int>, limit: nat): Result<Page, ChatError> {
    ToMessagePage(PageRows(user in s.members, Limit(VisibleBefore(s.log, deleted, before), limit + 1)), limit)
  }

  /** The page of a list of candidate rows: its first `limit`, and whether there were more. */
  function Cut(visible: seq<Message>, limit: nat): Page {
    if |visible| > limit then Page(visible[..limit], true) else Page(visible, false)
  }

  lemma {:induction false} RealRowsOf(found: seq<Message>)
    ensures RealRows(seq(|found|, i requires 0 <= i < |found| => Some(found[i]))) == found
  {
    if found != [] {
      RealRowsOf(found[1..]);
      var rows := seq(|found|, i requires 0 <= i < |found| => Some(found[i]));
      assert rows[1..] == seq(|found[1..]|, i requires 0 <= i < |found[1..]| => Some(found[1..][i]));
    }
  }

  /** A stranger is refused; a member gets exactly the cut of the visible messages. */
  lemma PageIsCut(member: bool, visible: seq<Message>, limit: nat)
    ensures ToMessagePage(PageRows(member, Limit(visible, limit + 1)), limit)
         == if member then Ok(Cut(visible, limit)) else Err(ChatRoomNotFound)
    ensures Cut(visible, limit).hasMore <==> |visible| > limit
    ensures Cut(visible, limit).messages == visible[..Min(limit, |visible|)]
  {
    if member {
      var found := Limit(visible, limit + 1);
      if found == [] {
        assert RealRows([None]) == RealRows([None][1..]) == [];
      } else {
        RealRowsOf(found);
        if |visible| > limit { assert found[..limit] == visible[..limit]; }
      }
    }
  }

  // ----- Sync walk -----

  /** Repeated sync of one member: `rooms[k]` is the room at the k-th call. Stops after a page without more, or a refusal. */
  function SyncWalk(rooms: seq<State>, deleted: set<int>, user: User, after: int, limit: nat): (seq<Message>, bool)
    requires limit >= 1
    decreases |rooms|
  {
    if rooms == [] then ([], false)
    else
      match ListMessagesAfter(rooms[0], deleted, user, after, limit)
      case Err(_) => ([], false)
      case Ok(page) =>
        if !page.hasMore then (page.messages, true)
        else
          var rest := SyncWalk(rooms[1..], deleted, user, page.messages[limit - 1].seqNo, limit);
          (page.messages + rest.0, rest.1)
  }

  /** Calls the walk really made. */
  function SyncCalls(rooms: seq<State>, deleted: set<int>, user: User, after: int, limit: nat): (n: nat)
    requires limit >= 1
    ensures n <= |rooms| && (rooms != [] ==> n >= 1)
    decreases |rooms|
  {
    if rooms == [] then 0
    else
      match ListMessagesAfter(rooms[0], deleted, user, after, limit)
      case Err(_) => 1
      case Ok(page) =>
        if !page.hasMore then 1 else 1 + SyncCalls(rooms[1..], deleted, user, page.messages[limit - 1].seqNo, limit)
  }

  /** An active member gets the first `limit` visible messages and learns exactly whether there are more; a stranger nothing. */
  lemma ListIsCut(s: State, deleted: set<int>, user: User, after: int, before: Option<int>, limit: nat)
    ensures ListMessagesAfter(s, deleted, user, after, limit)
         == if user in s.members then Ok(Cut(VisibleAfter(s.log, deleted, after), limit)) else Err(ChatRoomNotFound)
    ensures ListMessagesBefore(s, deleted, user, before, limit)
         == if user in s.members then Ok(Cut(VisibleBefore(s.log, deleted, before), limit)) else Err(ChatRoomNotFound)
  {
    PageIsCut(user in s.members, VisibleAfter(s.log, deleted, after), limit);
    PageIsCut(user in s.members, VisibleBefore(s.log, deleted, before), limit);
  }

  lemma {:induction false} VisibleAfterMember(log: seq<Message>, deleted: set<int>, after: int, m: Message)
    ensures m in VisibleAfter(log, deleted, after) <==> m in log && m.seqNo > after && m.seqNo !in deleted
  {
    if log != [] { VisibleAfterMember(log[1..], deleted, after, m); }
  }

  lemma {:induction false} VisibleAfterLower(log: seq<Message>, deleted: set<int>, a: int, b: int)
    requires forall i :: 0 <= i < |log| ==> log[i].seqNo > a && log[i].seqNo > b
    ensures VisibleAfter(log, deleted, a) == VisibleAfter(log, deleted, b)
  {
    if log != [] { VisibleAfterLower(log[1..], deleted, a, b); }
  }

  lemma {:induction false} VisibleAfterAppend(log: seq<Message>, more: seq<Message>, deleted: set<int>, after: int)
    ensures VisibleAfter(log + more, deleted, after) == VisibleAfter(log, deleted, after) + VisibleAfter(more, deleted, after)
  {
    if log == [] {
      assert [] + more == more;
    } else {
      assert (log + more)[1..] == log[1..] + more;
      VisibleAfterAppend(log[1..], more, deleted, after);
    }
  }

  /** Restarting from the k-th visible message leaves exactly the ones after it. */
  lemma {:induction false} VisibleAfterResumes(log: seq<Message>, deleted: set<int>, after: int, k: nat)
    requires Ascending(log) && 1 <= k <= |VisibleAfter(log, deleted, after)|
    ensures VisibleAfter(log, deleted, VisibleAfter(log, deleted, after)[k - 1].seqNo) == VisibleAfter(log, deleted, after)[k..]
  {
    var v := VisibleAfter(log, deleted, after);
    var rest := VisibleAfter(log[1..], deleted, after);
    var head := log[0];
    assert Ascending(log[1..]);
    if head.seqNo > after && head.seqNo !in deleted {
      if k == 1 {
        VisibleAfterLower(log[1..], deleted, after, head.seqNo);
      } else {
        VisibleAfterResumes(log[1..], deleted, after, k - 1);
        VisibleAfterMember(log[1..], deleted, after, rest[k - 2]);
        assert rest[k - 2] in rest;
      }
    } else {
      VisibleAfterResumes(log[1..], deleted, after, k);
      VisibleAfterMember(log[1..], deleted, after, rest[k - 1]);
      assert rest[k - 1] in rest;
    }
  }

  /** Successive states of one room in which `user` is an active member: logs ascend and only grow. */
  predicate GrowingRooms(rooms: seq<State>, user: User) {
    && (forall k :: 0 <= k < |rooms| ==> Ascending(rooms[k].log) && user in rooms[k].members)
    && (forall j, k :: 0 <= j <= k < |rooms| ==> rooms[j].log <= rooms[k].log)
  }

  /** A full page of an early log, then whatever a later log shows after it, is what the later log shows at once. */
  lemma PageThenRest(log: seq<Message>, later: seq<Message>, deleted: set<int>, after: int, limit: nat)
    requires limit >= 1 && log <= later && Ascending(later) && Cut(VisibleAfter(log, deleted, after), limit).hasMore
    ensures var page := Cut(VisibleAfter(log, deleted, after), limit).messages;
            |page| == limit
            && VisibleAfter(later, deleted, after) == page + VisibleAfter(later, deleted, page[limit - 1].seqNo)
  {
    var page := Cut(VisibleAfter(log, deleted, after), limit).messages;
    assert later == log + later[|log|..];
    VisibleAfterAppend(log, later[|log|..], deleted, after);
    var all := VisibleAfter(later, deleted, after);
    assert all[..limit] == page && all[limit - 1] == page[limit - 1];
    VisibleAfterResumes(later, deleted, after, limit);
    assert all == page + all[limit..];
  }

  /** One call of an active member, in terms of what is visible. */
  lemma SyncStep(rooms: seq<State>, deleted: set<int>, user: User, after: int, limit: nat)
    requires limit >= 1 && rooms != [] && user in rooms[0].members
    ensures var page := Cut(VisibleAfter(rooms[0].log, deleted, after), limit);
            if !page.hasMore then
              && SyncWalk(rooms, deleted, user, after, limit) == (page.messages, true)
              && SyncCalls(rooms, deleted, user, after, limit) == 1
            else
              var cursor := page.messages[limit - 1].seqNo;
              var rest := SyncWalk(rooms[1..], deleted, user, cursor, limit);
              && SyncWalk(rooms, deleted, user, after, limit) == (page.messages + rest.0, rest.1)
              && SyncCalls(rooms, deleted, user, after, limit) == 1 + SyncCalls(rooms[1..], deleted, user, cursor, limit)
  {
    ListIsCut(rooms[0], deleted, user, after, None, limit);
  }

  lemma GrowingTail(rooms: seq<State>, user: User)
    requires GrowingRooms(rooms, user) && rooms != []
    ensures GrowingRooms(rooms[1..], user)
    ensures forall k :: 0 <= k < |rooms| ==> rooms[0].log <= rooms[k].log && Ascending(rooms[k].log)
  {
  }

  /**
   * What the walk received is, in order and once each, a prefix of the visible
   * messages of the log at its last call; a finished walk received all of them.
   */
  lemma {:induction false} SyncWalkIsComplete(rooms: seq<State>, deleted: set<int>, user: User, after: int, limit: nat)
    requires limit >= 1 && GrowingRooms(rooms, user) && rooms != []
    ensures var (received, done) := SyncWalk(rooms, deleted, user, after, limit);
            var all := VisibleAfter(rooms[SyncCalls(rooms, deleted, user, after, limit) - 1].log, deleted, after);
            received <= all && (done ==> received == all)
    decreases |rooms|
  {
    SyncStep(rooms, deleted, user, after, limit);
    GrowingTail(rooms, user);
    var page := Cut(VisibleAfter(rooms[0].log, deleted, after), limit);
    if page.hasMore {
      var cursor := page.messages[limit - 1].seqNo;
      var calls := SyncCalls(rooms, deleted, user, after, limit);
      if |rooms| > 1 {
        SyncWalkIsComplete(rooms[1..], deleted, user, cursor, limit);
        assert rooms[1..][calls - 2] == rooms[calls - 1];
      }
      PageThenPart(rooms[0].log, rooms[calls - 1].log, deleted, after, limit, SyncWalk(rooms[1..], deleted, user, cursor, limit).0);
    }
  }

  /** A full page and a part of what comes after it are a part of what the later log shows. */
  lemma PageThenPart(log: seq<Message>, later: seq<Message>, deleted: set<int>, after: int, limit: nat, rest: seq<Message>)
    requires limit >= 1 && log <= later && Ascending(later) && Cut(VisibleAfter(log, deleted, after), limit).hasMore
    requires var page := Cut(VisibleAfter(log, deleted, after), limit).messages;
             rest <= VisibleAfter(later, deleted, page[limit - 1].seqNo)
    ensures var page := Cut(VisibleAfter(log, deleted, after), limit).messages;
            && page + rest <= VisibleAfter(later, deleted, after)
            && (rest == VisibleAfter(later, deleted, page[limit - 1].seqNo) ==> page + rest == VisibleAfter(later, deleted, after))
  {
    PageThenRest(log, later, deleted, after, limit);
  }

  /** The walk ends: with more calls than the newest log has messages for the member, some page was the last. */
  lemma {:induction false} SyncWalkEnds(rooms: seq<State>, deleted: set<int>, user: User, after: int, limit: nat)
    requires limit >= 1 && GrowingRooms(rooms, user)
    requires rooms != [] && |rooms| > |VisibleAfter(rooms[|rooms| - 1].log, deleted, after)|
    ensures SyncWalk(rooms, deleted, user, after, limit).1
    decreases |rooms|
  {
    SyncStep(rooms, deleted, user, after, limit);
    GrowingTail(rooms, user);
    var page := Cut(VisibleAfter(rooms[0].log, deleted, after), limit);
    if page.hasMore {
      var final := rooms[|rooms| - 1];
      PageThenRest(rooms[0].log, final.log, deleted, after, limit);
      SyncWalkEnds(rooms[1..], deleted, user, page.messages[limit - 1].seqNo, limit);
    }
  }

  /** Calls at successive moments of one run see growing logs, so the walk theorems apply to every run. */
  lemma {:induction false} RunRoomsGrow(s: State, gaps: seq<seq<Step>>, user: User)
    requires Inv(s) && forall k :: 0 <= k < |gaps| ==> user in RoomsAt(s, gaps)[k].members
    ensures GrowingRooms(RoomsAt(s, gaps), user) && forall k :: 0 <= k < |gaps| ==> s.log <= RoomsAt(s, gaps)[k].log
    decreases |gaps|
  {
    if gaps != [] {
      var s1 := Run(s, gaps[0]);
      RunKeepsInv(s, gaps[0]);
      assert RoomsAt(s, gaps)[1..] == RoomsAt(s1, gaps[1..]);
      forall k | 0 <= k < |gaps[1..]| ensures user in RoomsAt(s1, gaps[1..])[k].members {
        assert RoomsAt(s1, gaps[1..])[k] == RoomsAt(s, gaps)[k + 1];
      }
      RunRoomsGrow(s1, gaps[1..], user);
      assert Ascending(s1.log) by { assert Gapless(s1.log); }
    }
  }

  /** The room after each of a row of schedules, one before every call. */
  function RoomsAt(s: State, gaps: seq<seq<Step>>): (rooms: seq<State>)
    ensures |rooms| == |gaps|
    decreases |gaps|
  {
    if gaps == [] then []
    else
      var s1 := Run(s, gaps[0]);
      [s1] + RoomsAt(s1, gaps[1..])
  }

  /** The whole promise of sync: whatever is sent between the calls, nothing is missed or repeated, and enough calls end it. */
  lemma SyncMissesNothing(gaps: seq<seq<Step>>, deleted: set<int>, user: User, after: int, limit: nat)
    requires limit >= 1 && gaps != []
    requires forall k :: 0 <= k < |gaps| ==> user in RoomsAt(EMPTY, gaps)[k].members
    ensures var rooms := RoomsAt(EMPTY, gaps);
            var (received, done) := SyncWalk(rooms, deleted, user, after, limit);
            var final := rooms[SyncCalls(rooms, deleted, user, after, limit) - 1].log;
            && Ascending(received)
            && (forall m :: m in received ==> m in final && m.seqNo > after && m.seqNo !in deleted)
            && (done ==> forall m :: m in final && m.seqNo > after && m.seqNo !in deleted ==> m in received)
            && (|gaps| > |VisibleAfter(rooms[|gaps| - 1].log, deleted, after)| ==> done)
  {
    RunRoomsGrow(EMPTY, gaps, user);
    var rooms := RoomsAt(EMPTY, gaps);
    SyncWalkIsComplete(rooms, deleted, user, after, limit);
    if |gaps| > |VisibleAfter(rooms[|gaps| - 1].log, deleted, after)| {
      SyncWalkEnds(rooms, deleted, user, after, limit);
    }
    PrefixOfVisible(rooms[SyncCalls(rooms, deleted, user, after, limit) - 1].log, deleted, after,
                    SyncWalk(rooms, deleted, user, after, limit).0);
  }

  /** What a prefix of the visible messages contains. */
  lemma PrefixOfVisible(log: seq<Message>, deleted: set<int>, after: int, received: seq<Message>)
    requires Ascending(log) && received <= VisibleAfter(log, deleted, after)
    ensures Ascending(received)
    ensures forall m :: m in received ==> m in log && m.seqNo > after && m.seqNo !in deleted
    ensures received == VisibleAfter(log, deleted, after) ==>
              forall m :: m in log && m.seqNo > after && m.seqNo !in deleted ==> m in received
  {
    forall m ensures m in VisibleAfter(log, deleted, after) <==> m in log && m.seqNo > after && m.seqNo !in deleted {
      VisibleAfterMember(log, deleted, after, m);
    }
    VisibleAfterAscends(log, deleted, after);
  }

  lemma {:induction false} VisibleAfterAscends(log: seq<Message>, deleted: set<int>, after: int)
    requires Ascending(log)
    ensures Ascending(VisibleAfter(log, deleted, after))
  {
    if log != [] {
      assert Ascending(log[1..]);
      VisibleAfterAscends(log[1..], deleted, after);
      var rest := VisibleAfter(log[1..], deleted, after);
      forall i | 0 <= i < |rest| ensures rest[i].seqNo > log[0].seqNo {
        VisibleAfterMember(log[1..], deleted, after, rest[i]);
        assert rest[i] in rest;
      }
    }
  }

  // ----- History walk -----

  /** Paging back from the newest message; messages sent meanwhile are newer than the cursor. */
  function HistoryWalk(rooms: seq<State>, deleted: set<int>, user: User, before: Option<int>, limit: nat): (seq<Message>, bool)
    requires limit >= 1
    decreases |rooms|
  {
    if rooms == [] then ([], false)
    else
      match ListMessagesBefore(rooms[0], deleted, user, before, limit)
      case Err(_) => ([], false)
      case Ok(page) =>
        if !page.hasMore then (page.messages, true)
        else
          var rest := HistoryWalk(rooms[1..], deleted, user, Some(page.messages[limit - 1].seqNo), limit);
          (page.messages + rest.0, rest.1)
  }

  lemma {:induction false} VisibleBeforeMember(log: seq<Message>, deleted: set<int>, before: Option<int>, m: Message)
    ensures m in VisibleBefore(log, deleted, before)
        <==> m in log && (before.None? || m.seqNo < before.value) && m.seqNo !in deleted
  {
    if log != [] { VisibleBeforeMember(log[..|log| - 1], deleted, before, m); }
  }

  lemma {:induction false} VisibleBeforeUpper(log: seq<Message>, deleted: set<int>, a: Option<int>, b: Option<int>)
    requires forall i :: 0 <= i < |log| ==> (a.None? || log[i].seqNo < a.value) && (b.None? || log[i].seqNo < b.value)
    ensures VisibleBefore(log, deleted, a) == VisibleBefore(log, deleted, b)
  {
    if log != [] { VisibleBeforeUpper(log[..|log| - 1], deleted, a, b); }
  }

  /** Messages at or above the cursor do not matter. */
  lemma {:induction false} VisibleBeforePrefix(log: seq<Message>, longer: seq<Message>, deleted: set<int>, before: int)
    requires log <= longer
    requires forall i :: |log| <= i < |longer| ==> longer[i].seqNo >= before
    ensures VisibleBefore(longer, deleted, Some(before)) == VisibleBefore(log, deleted, Some(before))
    decreases |longer|
  {
    if |longer| > |log| {
      VisibleBeforePrefix(log, longer[..|longer| - 1], deleted, before);
    } else {
      assert longer == log;
    }
  }

  lemma {:induction false} VisibleBeforeResumes(log: seq<Message>, deleted: set<int>, before: Option<int>, k: nat)
    requires Ascending(log) && 1 <= k <= |VisibleBefore(log, deleted, before)|
    ensures VisibleBefore(log, deleted, Some(VisibleBefore(log, deleted, before)[k - 1].seqNo))
         == VisibleBefore(log, deleted, before)[k..]
    decreases |log|
  {
    var init := log[..|log| - 1];
    var last := log[|log| - 1];
    var rest := VisibleBefore(init, deleted, before);
    assert Ascending(init);
    if (before.None? || last.seqNo < before.value) && last.seqNo !in deleted {
      if k == 1 {
        VisibleBeforeUpper(init, deleted, before, Some(last.seqNo));
      } else {
        VisibleBeforeResumes(init, deleted, before, k - 1);
        VisibleBeforeMember(init, deleted, before, rest[k - 2]);
        assert rest[k - 2] in rest;
      }
    } else {
      VisibleBeforeResumes(init, deleted, before, k);
      VisibleBeforeMember(init, deleted, before, rest[k - 1]);
      assert rest[k - 1] in rest;
    }
  }

  /** A page of the history, then whatever a later log shows before it, is the history at once. */
  lemma PageThenOlder(log: seq<Message>, later: seq<Message>, deleted: set<int>, before: Option<int>, limit: nat)
    requires limit >= 1 && log <= later && Ascending(later) && Cut(VisibleBefore(log, deleted, before), limit).hasMore
    ensures var page := Cut(VisibleBefore(log, deleted, before), limit).messages;
            |page| == limit
            && VisibleBefore(log, deleted, before) == page + VisibleBefore(later, deleted, Some(page[limit - 1].seqNo))
  {
    var v := VisibleBefore(log, deleted, before);
    var cursor := v[limit - 1].seqNo;
    assert Ascending(log) by { assert log == later[..|log|]; }
    VisibleBeforeResumes(log, deleted, before, limit);
    assert v[limit - 1] in v;
    VisibleBeforeMember(log, deleted, before, v[limit - 1]);
    var j :| 0 <= j < |log| && log[j] == v[limit - 1];
    assert later[j] == log[j];
    VisibleBeforePrefix(log, later, deleted, cursor);
    assert v == v[..limit] + v[limit..];
  }

  /** One call of an active member paging back, in terms of what is visible. */
  lemma HistoryStep(rooms: seq<State>, deleted: set<int>, user: User, before: Option<int>, limit: nat)
    requires limit >= 1 && rooms != [] && user in rooms[0].members
    ensures var page := Cut(VisibleBefore(rooms[0].log, deleted, before), limit);
            if !page.hasMore then HistoryWalk(rooms, deleted, user, before, limit) == (page.messages, true)
            else
              var rest := HistoryWalk(rooms[1..], deleted, user, Some(page.messages[limit - 1].seqNo), limit);
              HistoryWalk(rooms, deleted, user, before, limit) == (page.messages + rest.0, rest.1)
  {
    ListIsCut(rooms[0], deleted, user, 0, before, limit);
  }

  /** A finished walk back is exactly the history visible at its first call, newest first. */
  lemma {:induction false} HistoryWalkIsComplete(rooms: seq<State>, deleted: set<int>, user: User, before: Option<int>, limit: nat)
    requires limit >= 1 && GrowingRooms(rooms, user) && rooms != []
    ensures var (received, done) := HistoryWalk(rooms, deleted, user, before, limit);
            var all := VisibleBefore(rooms[0].log, deleted, before);
            && received <= all && (done ==> received == all)
            && (|rooms| > |all| ==> done)
    decreases |rooms|
  {
    HistoryStep(rooms, deleted, user, before, limit);
    GrowingTail(rooms, user);
    var page := Cut(VisibleBefore(rooms[0].log, deleted, before), limit);
    if page.hasMore && |rooms| > 1 {
      PageThenOlder(rooms[0].log, rooms[1].log, deleted, before, limit);
      HistoryWalkIsComplete(rooms[1..], deleted, user, Some(page.messages[limit - 1].seqNo), limit);
    }
  }

  lemma {:induction false} VisibleBeforeDescends(log: seq<Message>, deleted: set<int>, before: Option<int>)
    requires Ascending(log)
    ensures var v := VisibleBefore(log, deleted, before); forall i, j :: 0 <= i < j < |v| ==> v[i].seqNo > v[j].seqNo
  {
    if log != [] {
      var init, last := log[..|log| - 1], log[|log| - 1];
      VisibleBeforeDescends(init, deleted, before);
      var rest := VisibleBefore(init, deleted, before);
      forall i | 0 <= i < |rest| ensures rest[i].seqNo < last.seqNo {
        VisibleBeforeMember(init, deleted, before, rest[i]);
        assert rest[i] in rest;
      }
    }
  }

  lemma {:induction false} VisibleBeforeSize(log: seq<Message>, deleted: set<int>, before: Option<int>)
    ensures |VisibleBefore(log, deleted, before)| <= |log|
  {
    if log != [] { VisibleBeforeSize(log[..|log| - 1], deleted, before); }
  }

  /**
   * The whole promise of paging back: whatever is sent between the calls, the walk
   * receives messages of the room at its first call, newest first and once each,
   * and in the end all of them that are older than the cursor and not deleted.
   */
  lemma HistoryMissesNothing(gaps: seq<seq<Step>>, deleted: set<int>, user: User, before: Option<int>, limit: nat)
    requires limit >= 1 && gaps != []
    requires forall k :: 0 <= k < |gaps| ==> user in RoomsAt(EMPTY, gaps)[k].members
    ensures var rooms := RoomsAt(EMPTY, gaps);
            var (received, done) := HistoryWalk(rooms, deleted, user, before, limit);
            var first := rooms[0].log;
            && (forall i, j :: 0 <= i < j < |received| ==> received[i].seqNo > received[j].seqNo)
            && (forall m :: m in received ==> m in first && (before.None? || m.seqNo < before.value) && m.seqNo !in deleted)
            && (done ==> forall m :: m in first && (before.None? || m.seqNo < before.value) && m.seqNo !in deleted ==> m in received)
            && (|gaps| > |first| ==> done)
  {
    RunRoomsGrow(EMPTY, gaps, user);
    var rooms := RoomsAt(EMPTY, gaps);
    HistoryWalkIsComplete(rooms, deleted, user, before, limit);
    VisibleBeforeDescends(rooms[0].log, deleted, before);
    VisibleBeforeSize(rooms[0].log, deleted, before);
    forall m ensures m in VisibleBefore(rooms[0].log, deleted, before)
                 <==> m in rooms[0].log && (before.None? || m.seqNo < before.value) && m.seqNo !in deleted
    {
      VisibleBeforeMember(rooms[0].log, deleted, before, m);
    }
  }
}
