/**
 * Mutual swipes and the match they create, under READ COMMITTED. `persist`
 * transactions for any users interleave step by step; a transaction-scoped
 * advisory lock on the unordered pair is the only thing that serialises them.
 */
module SwipeProtocol {
  import opened Common

  type User = nat
  type Room = nat
  type Pair = (User, User)

  datatype Direction = Like | Pass

  /** `inserted`: this transaction inserted the swipe row; `created`: it inserted room and match. */
  datatype Phase =
    | Begin
    | Locked
    | Swiped(inserted: bool)
    | Mutual(inserted: bool)
    | RoomInserted(inserted: bool, room: Room)
    | Ready(inserted: bool, match_: Option<Room>, created: bool)
    | Committed(result: Option<Room>)
    | Aborted

  datatype Txn = Txn(source: User, target: User, direction: Direction, phase: Phase)

  /** Committed tables, the advisory locks, the running transactions and the id source of rooms. */
  datatype State = State(
    swipes: map<Pair, Direction>, matches: map<Pair, Room>, rooms: set<Room>,
    members: map<Room, set<User>>, locks: map<Pair, nat>, txns: map<nat, Txn>, nextRoom: Room)

  function Canonical(u: User, v: User): Pair { if u <= v then (u, v) else (v, u) }

  function PairOf(x: Txn): Pair { Canonical(x.source, x.target) }

  predicate Likes(swipes: map<Pair, Direction>, u: User, v: User) {
    (u, v) in swipes && swipes[(u, v)] == Like
  }

  predicate MutualLike(swipes: map<Pair, Direction>, p: Pair) {
    p.0 != p.1 && Likes(swipes, p.0, p.1) && Likes(swipes, p.1, p.0)
  }

  // ----- Steps -----

  /** `Advance` is the next statement; `Abort` is an eligibility failure, an error or a lost connection. */
  datatype Step =
    | Start(id: nat, source: User, target: User, direction: Direction)
    | Advance(id: nat)
    | Abort(id: nat)

  function SetPhase(s: State, t: nat, p: Phase): State
    requires t in s.txns
  {
    s.(txns := s.txns[t := s.txns[t].(phase := p)])
  }

  function Finish(s: State, t: nat, p: Phase): State
    requires t in s.txns
  {
    SetPhase(s, t, p).(locks := map l | l in s.locks && s.locks[l] != t :: s.locks[l])
  }

  /** With `locking` off the advisory lock is skipped; the code always takes it. */
  function TakeLock(locking: bool, s: State, t: nat): State
    requires t in s.txns
  {
    var p := PairOf(s.txns[t]);
    if !locking then SetPhase(s, t, Locked)
    else if p in s.locks then s
    else SetPhase(s, t, Locked).(locks := s.locks[p := t])
  }

  /** INSERT ... ON CONFLICT DO NOTHING, then compare the direction of the row that is there. */
  function InsertOrResolveSwipe(s: State, t: nat): State
    requires t in s.txns
  {
    var x := s.txns[t];
    var key := (x.source, x.target);
    if x.source == x.target then Finish(s, t, Aborted)
    else if key !in s.swipes then SetPhase(s, t, Swiped(true))
    else if s.swipes[key] != x.direction then Finish(s, t, Aborted)
    else SetPhase(s, t, Swiped(false))
  }

  function CheckReciprocal(s: State, t: nat): State
    requires t in s.txns && s.txns[t].phase.Swiped?
  {
    var x := s.txns[t];
    if x.direction == Like && Likes(s.swipes, x.target, x.source) then SetPhase(s, t, Mutual(x.phase.inserted))
    else SetPhase(s, t, Ready(x.phase.inserted, None, false))
  }

  function FindMatchOrInsertRoom(s: State, t: nat): State
    requires t in s.txns && s.txns[t].phase.Mutual?
  {
    var x := s.txns[t];
    if PairOf(x) in s.matches then SetPhase(s, t, Ready(x.phase.inserted, Some(s.matches[PairOf(x)]), false))
    else SetPhase(s, t, RoomInserted(x.phase.inserted, s.nextRoom)).(nextRoom := s.nextRoom + 1)
  }

  /** A match of another writer is authoritative: the unused room goes away. */
  function InsertMatch(s: State, t: nat): State
    requires t in s.txns && s.txns[t].phase.RoomInserted?
  {
    var x := s.txns[t];
    if PairOf(x) in s.matches then SetPhase(s, t, Ready(x.phase.inserted, Some(s.matches[PairOf(x)]), false))
    else SetPhase(s, t, Ready(x.phase.inserted, Some(x.phase.room), true))
  }

  /** Commit makes the buffered swipe, room, match and members visible at once. */
  function Commit(s: State, t: nat): State
    requires t in s.txns && s.txns[t].phase.Ready?
  {
    var x := s.txns[t];
    var p := PairOf(x);
    var s1 := Finish(s, t, Committed(x.phase.match_));
    var s2 := if x.phase.inserted then s1.(swipes := s.swipes[(x.source, x.target) := x.direction]) else s1;
    if x.phase.match_.None? then s2
    else
      var r := x.phase.match_.value;
      var present := if r in s.members then s.members[r] else {};
      var s3 := s2.(members := s.members[r := present + {p.0, p.1}]);
      if x.phase.created then s3.(rooms := s.rooms + {r}, matches := s.matches[p := r]) else s3
  }

  function AdvanceTxn(locking: bool, s: State, t: nat): State
    requires t in s.txns
  {
    match s.txns[t].phase
    case Begin => TakeLock(locking, s, t)
    case Locked => InsertOrResolveSwipe(s, t)
    case Swiped(_) => CheckReciprocal(s, t)
    case Mutual(_) => FindMatchOrInsertRoom(s, t)
    case RoomInserted(_, _) => InsertMatch(s, t)
    case Ready(_, _, _) => Commit(s, t)
    case Committed(_) => s
    case Aborted => s
  }

  predicate Finished(x: Txn) { x.phase.Committed? || x.phase.Aborted? }

  function Apply(locking: bool, s: State, step: Step): State {
    match step
    case Start(t, u, v, d) => if t in s.txns then s else s.(txns := s.txns[t := Txn(u, v, d, Begin)])
    case Advance(t) => if t in s.txns then AdvanceTxn(locking, s, t) else s
    case Abort(t) => if t in s.txns && !Finished(s.txns[t]) then Finish(s, t, Aborted) else s
  }

  function Run(locking: bool, s: State, steps: seq<Step>): State
    decreases |steps|
  {
    if steps == [] then s else Run(locking, Apply(locking, s, steps[0]), steps[1..])
  }

  const EMPTY: State := State(map[], map[], {}, map[], map[], map[], 0)

  // ----- Invariant -----

  predicate HoldsLock(x: Txn) { !x.phase.Begin? && !Finished(x) }

  predicate LocksMatch(s: State) {
    forall t :: t in s.txns && HoldsLock(s.txns[t]) ==> PairOf(s.txns[t]) in s.locks && s.locks[PairOf(s.txns[t])] == t
  }

  /** What the phase of a transaction says about the committed rows of its pair. */
  predicate TxnInv(s: State, x: Txn) {
    match x.phase
    case Swiped(inserted) => SwipeIs(s, x, inserted)
    case Mutual(inserted) => SwipeIs(s, x, inserted) && Reciprocated(s, x)
    case RoomInserted(inserted, room) =>
      SwipeIs(s, x, inserted) && Reciprocated(s, x) && PairOf(x) !in s.matches && NewRoom(s, room)
    case Ready(inserted, found, created) =>
      && SwipeIs(s, x, inserted)
      && (found.Some? <==> Reciprocated(s, x))
      && (created ==> found.Some? && PairOf(x) !in s.matches && NewRoom(s, found.value))
      && (found.Some? && !created ==> PairOf(x) in s.matches && s.matches[PairOf(x)] == found.value)
    case _ => true
  }

  predicate SwipeIs(s: State, x: Txn, inserted: bool) {
    && x.source != x.target
    && (inserted <==> (x.source, x.target) !in s.swipes)
    && (!inserted ==> s.swipes[(x.source, x.target)] == x.direction)
  }

  predicate Reciprocated(s: State, x: Txn) {
    x.direction == Like && Likes(s.swipes, x.target, x.source)
  }

  predicate NewRoom(s: State, r: Room) { r < s.nextRoom && r !in s.rooms }

  function OwnRoom(x: Txn): Option<Room> {
    if x.phase.RoomInserted? then Some(x.phase.room)
    else if x.phase.Ready? && x.phase.created then x.phase.match_
    else None
  }

  predicate OwnRoomsDiffer(s: State) {
    forall t, u :: t in s.txns && u in s.txns && t != u && OwnRoom(s.txns[t]).Some?
      ==> OwnRoom(s.txns[t]) != OwnRoom(s.txns[u])
  }

  ghost predicate MatchIffMutual(s: State) {
    forall p: Pair :: p.0 <= p.1 ==> (p in s.matches <==> MutualLike(s.swipes, p))
  }

  /** One room per match, with exactly the two users; no other MATCH room. */
  predicate RoomsMatch(s: State) {
    && (forall p :: p in s.matches ==> p.0 < p.1 && s.matches[p] in s.rooms)
    && (forall p, q :: p in s.matches && q in s.matches && s.matches[p] == s.matches[q] ==> p == q)
    && (forall r :: r in s.rooms ==> exists p :: p in s.matches && s.matches[p] == r)
    && (forall p :: p in s.matches ==> s.matches[p] in s.members && s.members[s.matches[p]] == {p.0, p.1})
    && s.members.Keys == s.rooms
    && (forall r :: r in s.rooms ==> r < s.nextRoom)
  }

  ghost predicate Inv(s: State) {
    && LocksMatch(s)
    && MatchIffMutual(s)
    && RoomsMatch(s)
    && OwnRoomsDiffer(s)
    && forall t :: t in s.txns ==> TxnInv(s, s.txns[t])
  }

  // ----- Preservation -----

  /** Transactions on one pair exclude each other. */
  lemma OnePerPair(s: State, t: nat, u: nat)
    requires LocksMatch(s) && t in s.txns && u in s.txns
    requires HoldsLock(s.txns[t]) && HoldsLock(s.txns[u]) && PairOf(s.txns[t]) == PairOf(s.txns[u])
    ensures t == u
  {
  }

  lemma PrivateStepKeepsInv(s: State, s': State, t: nat, p: Phase)
    requires Inv(s) && t in s.txns
    requires s' == s.(txns := s.txns[t := s.txns[t].(phase := p)], locks := s'.locks, nextRoom := s'.nextRoom)
    requires s.nextRoom <= s'.nextRoom && LocksMatch(s')
    requires var x := s.txns[t].(phase := p);
             TxnInv(s', x) && (OwnRoom(x).None? || OwnRoom(x) == OwnRoom(s.txns[t]) || OwnRoom(x) == Some(s.nextRoom))
    ensures Inv(s')
  {
    forall u | u in s'.txns ensures TxnInv(s', s'.txns[u]) {
      if u != t { assert TxnInv(s, s.txns[u]); }
    }
    forall u, v | u in s'.txns && v in s'.txns && u != v && OwnRoom(s'.txns[u]).Some?
      ensures OwnRoom(s'.txns[u]) != OwnRoom(s'.txns[v])
    {
      assert TxnInv(s, s.txns[u]) && TxnInv(s, s.txns[v]);
    }
  }

  lemma FinishKeepsInv(s: State, t: nat, p: Phase)
    requires Inv(s) && t in s.txns && (p.Committed? || p.Aborted?)
    ensures Inv(Finish(s, t, p))
  {
    PrivateStepKeepsInv(s, Finish(s, t, p), t, p);
  }

  lemma BeginKeepsInv(s: State, t: nat)
    requires Inv(s) && t in s.txns && s.txns[t].phase.Begin?
    ensures Inv(TakeLock(true, s, t))
  {
    if PairOf(s.txns[t]) !in s.locks {
      PrivateStepKeepsInv(s, TakeLock(true, s, t), t, Locked);
    }
  }

  lemma LockedKeepsInv(s: State, t: nat)
    requires Inv(s) && t in s.txns && s.txns[t].phase.Locked?
    ensures Inv(InsertOrResolveSwipe(s, t))
  {
    var x := s.txns[t];
    var key := (x.source, x.target);
    if x.source == x.target || (key in s.swipes && s.swipes[key] != x.direction) {
      FinishKeepsInv(s, t, Aborted);
    } else {
      PrivateStepKeepsInv(s, InsertOrResolveSwipe(s, t), t, Swiped(key !in s.swipes));
    }
  }

  lemma SwipedKeepsInv(s: State, t: nat)
    requires Inv(s) && t in s.txns && s.txns[t].phase.Swiped?
    ensures Inv(CheckReciprocal(s, t))
  {
    assert TxnInv(s, s.txns[t]);
    var s' := CheckReciprocal(s, t);
    PrivateStepKeepsInv(s, s', t, s'.txns[t].phase);
  }

  lemma MutualKeepsInv(s: State, t: nat)
    requires Inv(s) && t in s.txns && s.txns[t].phase.Mutual?
    ensures Inv(FindMatchOrInsertRoom(s, t))
  {
    assert TxnInv(s, s.txns[t]);
    var s' := FindMatchOrInsertRoom(s, t);
    PrivateStepKeepsInv(s, s', t, s'.txns[t].phase);
  }

  lemma RoomInsertedKeepsInv(s: State, t: nat)
    requires Inv(s) && t in s.txns && s.txns[t].phase.RoomInserted?
    ensures Inv(InsertMatch(s, t))
  {
    assert TxnInv(s, s.txns[t]);
    var s' := InsertMatch(s, t);
    PrivateStepKeepsInv(s, s', t, s'.txns[t].phase);
  }

  /** The commit leaves the rows of every other pair alone. */
  lemma CommitKeepsOther(s: State, t: nat, u: nat)
    requires LocksMatch(s) && OwnRoomsDiffer(s)
    requires t in s.txns && u in s.txns && t != u && s.txns[t].phase.Ready?
    requires TxnInv(s, s.txns[t]) && TxnInv(s, s.txns[u])
    ensures TxnInv(Commit(s, t), s.txns[u])
  {
    if HoldsLock(s.txns[u]) && PairOf(s.txns[u]) == PairOf(s.txns[t]) {
      OnePerPair(s, t, u);
    }
  }

  lemma OtherPairsUntouched(swipes: map<Pair, Direction>, x: Txn, p: Pair)
    requires p.0 <= p.1 && p != PairOf(x)
    ensures MutualLike(swipes[(x.source, x.target) := x.direction], p) <==> MutualLike(swipes, p)
  {
  }

  lemma CommitKeepsMutual(s: State, t: nat)
    requires MatchIffMutual(s) && t in s.txns && s.txns[t].phase.Ready? && TxnInv(s, s.txns[t])
    ensures MatchIffMutual(Commit(s, t))
  {
    var x := s.txns[t];
    var s' := Commit(s, t);
    forall p: Pair | p.0 <= p.1
      ensures p in s'.matches <==> MutualLike(s'.swipes, p)
    {
      assert p in s.matches <==> MutualLike(s.swipes, p);
      if p != PairOf(x) {
        OtherPairsUntouched(s.swipes, x, p);
      }
    }
  }

  /** Adding a match with its own new room and its two users. */
  lemma NewMatchKeepsRooms(s: State, s': State, p: Pair, r: Room)
    requires RoomsMatch(s) && p.0 < p.1 && p !in s.matches && r !in s.rooms && r < s.nextRoom
    requires s'.matches == s.matches[p := r] && s'.rooms == s.rooms + {r} && s'.nextRoom == s.nextRoom
    requires s'.members == s.members[r := {p.0, p.1}]
    ensures RoomsMatch(s')
  {
    forall q | q in s'.rooms ensures exists w :: w in s'.matches && s'.matches[w] == q {
      if q == r {
        assert p in s'.matches && s'.matches[p] == q;
      } else {
        var w :| w in s.matches && s.matches[w] == q;
        assert w in s'.matches && s'.matches[w] == q;
      }
    }
  }

  lemma CommitKeepsRooms(s: State, t: nat)
    requires Inv(s) && t in s.txns && s.txns[t].phase.Ready?
    ensures RoomsMatch(Commit(s, t))
  {
    var x := s.txns[t];
    assert TxnInv(s, x);
    if x.phase.match_.Some? {
      var r, p := x.phase.match_.value, PairOf(x);
      if x.phase.created {
        assert {} + {p.0, p.1} == {p.0, p.1};
        NewMatchKeepsRooms(s, Commit(s, t), p, r);
      } else {
        assert s.members[r] + {p.0, p.1} == s.members[r];
        assert s.members[r := s.members[r]] == s.members;
      }
    }
  }

  lemma CommitKeepsInv(s: State, t: nat)
    requires Inv(s) && t in s.txns && s.txns[t].phase.Ready?
    ensures Inv(Commit(s, t))
  {
    var s1 := Finish(s, t, Committed(s.txns[t].phase.match_));
    var s' := Commit(s, t);
    FinishKeepsInv(s, t, Committed(s.txns[t].phase.match_));
    assert s'.txns == s1.txns && s'.locks == s1.locks;
    assert LocksMatch(s') && OwnRoomsDiffer(s') by {
      assert LocksMatch(s1) && OwnRoomsDiffer(s1);
    }
    assert MatchIffMutual(s') by { CommitKeepsMutual(s, t); }
    assert RoomsMatch(s') by { CommitKeepsRooms(s, t); }
    CommitKeepsTxns(s, t);
  }

  lemma CommitKeepsTxns(s: State, t: nat)
    requires Inv(s) && t in s.txns && s.txns[t].phase.Ready?
    ensures var s' := Commit(s, t); forall u :: u in s'.txns ==> TxnInv(s', s'.txns[u])
  {
    var s' := Commit(s, t);
    forall u | u in s'.txns ensures TxnInv(s', s'.txns[u]) {
      if u != t {
        assert TxnInv(s, s.txns[t]) && TxnInv(s, s.txns[u]);
        CommitKeepsOther(s, t, u);
      }
    }
  }

  lemma AdvanceKeepsInv(s: State, t: nat)
    requires Inv(s) && t in s.txns
    ensures Inv(AdvanceTxn(true, s, t))
  {
    match s.txns[t].phase
    case Begin => BeginKeepsInv(s, t);
    case Locked => LockedKeepsInv(s, t);
    case Swiped(_) => SwipedKeepsInv(s, t);
    case Mutual(_) => MutualKeepsInv(s, t);
    case RoomInserted(_, _) => RoomInsertedKeepsInv(s, t);
    case Ready(_, _, _) => CommitKeepsInv(s, t);
    case Committed(_) =>
    case Aborted =>
  }

  lemma StartKeepsInv(s: State, t: nat, x: Txn)
    requires Inv(s) && t !in s.txns && x.phase.Begin?
    ensures Inv(s.(txns := s.txns[t := x]))
  {
    var s' := s.(txns := s.txns[t := x]);
    assert MatchIffMutual(s') && RoomsMatch(s') by { SameRows(s, s'); }
    assert LocksMatch(s') && OwnRoomsDiffer(s');
    forall u | u in s'.txns ensures TxnInv(s', s'.txns[u]) {
      if u != t { assert TxnInv(s, s.txns[u]); }
    }
  }

  lemma SameRows(s: State, s': State)
    requires MatchIffMutual(s) && RoomsMatch(s)
    requires s'.swipes == s.swipes && s'.matches == s.matches && s'.rooms == s.rooms && s'.members == s.members
    requires s.nextRoom <= s'.nextRoom
    ensures MatchIffMutual(s') && RoomsMatch(s')
  {
  }

  lemma StepKeepsInv(s: State, step: Step)
    requires Inv(s)
    ensures Inv(Apply(true, s, step))
  {
    match step
    case Start(t, u, v, d) => if t !in s.txns { StartKeepsInv(s, t, Txn(u, v, d, Begin)); }
    case Advance(t) => if t in s.txns { AdvanceKeepsInv(s, t); }
    case Abort(t) => if t in s.txns { FinishKeepsInv(s, t, Aborted); }
  }

  lemma {:induction false} RunKeepsInv(s: State, steps: seq<Step>)
    requires Inv(s)
    ensures Inv(Run(true, s, steps))
    decreases |steps|
  {
    if steps != [] {
      StepKeepsInv(s, steps[0]);
      RunKeepsInv(Apply(true, s, steps[0]), steps[1..]);
    }
  }

  // ----- Main results -----

  /** In every interleaving a match exists exactly for the pairs that like each other. */
  lemma MatchExactlyOnMutualLike(steps: seq<Step>, u: User, v: User)
    requires u < v
    ensures var s := Run(true, EMPTY, steps);
            (u, v) in s.matches <==>
              && (u, v) in s.swipes && s.swipes[(u, v)] == Like
              && (v, u) in s.swipes && s.swipes[(v, u)] == Like
  {
    RunKeepsInv(EMPTY, steps);
    var s := Run(true, EMPTY, steps);
    assert (u, v) in s.matches <==> MutualLike(s.swipes, (u, v));
  }

  /** Every match has its own room with exactly its two users, and there is no other room. */
  lemma OneRoomPerMatch(steps: seq<Step>)
    ensures RoomsMatch(Run(true, EMPTY, steps))
  {
    RunKeepsInv(EMPTY, steps);
  }

  predicate Extends<K(==), V(==)>(later: map<K, V>, earlier: map<K, V>) {
    forall k :: k in earlier ==> k in later && later[k] == earlier[k]
  }

  lemma StepKeepsRows(s: State, step: Step)
    requires Inv(s)
    ensures Extends(Apply(true, s, step).swipes, s.swipes)
    ensures Extends(Apply(true, s, step).matches, s.matches)
  {
    if step.Advance? && step.id in s.txns && s.txns[step.id].phase.Ready? {
      assert TxnInv(s, s.txns[step.id]);
      CommitExtends(s, step.id);
    } else {
      OnlyCommitsWrite(s, step);
    }
  }

  lemma CommitExtends(s: State, t: nat)
    requires t in s.txns && s.txns[t].phase.Ready? && TxnInv(s, s.txns[t])
    ensures Extends(Commit(s, t).swipes, s.swipes) && Extends(Commit(s, t).matches, s.matches)
  {
  }

  lemma OnlyCommitsWrite(s: State, step: Step)
    requires !(step.Advance? && step.id in s.txns && s.txns[step.id].phase.Ready?)
    ensures Apply(true, s, step).swipes == s.swipes && Apply(true, s, step).matches == s.matches
  {
    if step.Advance? && step.id in s.txns { OnlyCommitAdvanceWrites(s, step.id); }
  }

  lemma OnlyCommitAdvanceWrites(s: State, t: nat)
    requires t in s.txns && !s.txns[t].phase.Ready?
    ensures AdvanceTxn(true, s, t).swipes == s.swipes && AdvanceTxn(true, s, t).matches == s.matches
  {
    match s.txns[t].phase
    case Begin => assert AdvanceTxn(true, s, t) == TakeLock(true, s, t);
    case Locked => assert AdvanceTxn(true, s, t) == InsertOrResolveSwipe(s, t);
    case Swiped(_) => assert AdvanceTxn(true, s, t) == CheckReciprocal(s, t);
    case Mutual(_) => assert AdvanceTxn(true, s, t) == FindMatchOrInsertRoom(s, t);
    case RoomInserted(_, _) => assert AdvanceTxn(true, s, t) == InsertMatch(s, t);
    case Committed(_) =>
    case Aborted =>
  }

  lemma {:induction false} CommittedRowsStayFrom(s: State, steps: seq<Step>)
    requires Inv(s)
    ensures Extends(Run(true, s, steps).swipes, s.swipes) && Extends(Run(true, s, steps).matches, s.matches)
    decreases |steps|
  {
    if steps != [] {
      StepKeepsInv(s, steps[0]);
      StepKeepsRows(s, steps[0]);
      CommittedRowsStayFrom(Apply(true, s, steps[0]), steps[1..]);
    }
  }

  /** A swipe never changes and a match keeps its room, once committed. */
  lemma CommittedRowsStay(before: seq<Step>, after: seq<Step>)
    ensures var s := Run(true, EMPTY, before);
            && Extends(Run(true, s, after).swipes, s.swipes)
            && Extends(Run(true, s, after).matches, s.matches)
  {
    RunKeepsInv(EMPTY, before);
    CommittedRowsStayFrom(Run(true, EMPTY, before), after);
  }

  // ----- What a caller is told -----

  function MatchOf(s: State, u: User, v: User): Option<Room> {
    var p := if u < v then (u, v) else (v, u);
    if p in s.matches then Some(s.matches[p]) else None
  }

  /** A committed call: its swipe is stored as given, and the room it was told is that of the pair's match. */
  predicate AnswerHolds(s: State, x: Txn)
    requires x.phase.Committed?
  {
    && x.source != x.target
    && (x.source, x.target) in s.swipes && s.swipes[(x.source, x.target)] == x.direction
    && (x.phase.result.Some? ==> x.direction == Like && MatchOf(s, x.source, x.target) == x.phase.result)
  }

  ghost predicate AnswersHold(s: State) {
    forall t :: t in s.txns && s.txns[t].phase.Committed? ==> AnswerHolds(s, s.txns[t])
  }

  /** Every stored swipe was given by a call that committed. */
  ghost predicate SwipesWereGiven(s: State) {
    forall key :: key in s.swipes ==> exists t :: Gave(s, t, key)
  }

  predicate Gave(s: State, t: nat, key: Pair) {
    && t in s.txns && s.txns[t].phase.Committed? && key in s.swipes
    && (s.txns[t].source, s.txns[t].target) == key && s.txns[t].direction == s.swipes[key]
  }

  /** Only the commit of a ready call completes one; every other step leaves the completed calls as they are. */
  lemma StepCompletes(s: State, step: Step, t: nat)
    ensures var s' := Apply(true, s, step);
            && (t in s.txns && s.txns[t].phase.Committed? ==> t in s'.txns && s'.txns[t] == s.txns[t])
            && (t in s'.txns && s'.txns[t].phase.Committed? && !(t in s.txns && s.txns[t].phase.Committed?) ==>
                  && step == Advance(t) && t in s.txns && s.txns[t].phase.Ready?
                  && s'.txns[t] == s.txns[t].(phase := Committed(s.txns[t].phase.match_)))
  {
    if step.Advance? && step.id in s.txns { AdvanceCompletes(s, step.id); }
  }

  /** One transaction moved: to the commit when it was ready, to something else otherwise. */
  predicate Moved(s: State, s': State, id: nat)
    requires id in s.txns
  {
    && id in s'.txns && s'.txns == s.txns[id := s.txns[id].(phase := s'.txns[id].phase)]
    && (s.txns[id].phase.Committed? ==> s' == s)
    && (if s.txns[id].phase.Ready? then s'.txns[id].phase == Committed(s.txns[id].phase.match_)
        else !s.txns[id].phase.Committed? ==> !s'.txns[id].phase.Committed?)
  }

  lemma AdvanceCompletes(s: State, id: nat)
    requires id in s.txns
    ensures Moved(s, AdvanceTxn(true, s, id), id)
  {
    match s.txns[id].phase
    case Begin => FirstStepsMove(s, id);
    case Locked => FirstStepsMove(s, id);
    case Swiped(_) => MiddleStepsMove(s, id);
    case Mutual(_) => MiddleStepsMove(s, id);
    case RoomInserted(_, _) => MiddleStepsMove(s, id);
    case Ready(_, _, _) => CommitMoves(s, id);
    case Committed(_) =>
    case Aborted =>
  }

  lemma FirstStepsMove(s: State, id: nat)
    requires id in s.txns
    ensures s.txns[id].phase.Begin? ==> Moved(s, TakeLock(true, s, id), id)
    ensures s.txns[id].phase.Locked? ==> Moved(s, InsertOrResolveSwipe(s, id), id)
  {
  }

  lemma MiddleStepsMove(s: State, id: nat)
    requires id in s.txns
    ensures s.txns[id].phase.Swiped? ==> Moved(s, CheckReciprocal(s, id), id)
    ensures s.txns[id].phase.Mutual? ==> Moved(s, FindMatchOrInsertRoom(s, id), id)
    ensures s.txns[id].phase.RoomInserted? ==> Moved(s, InsertMatch(s, id), id)
  {
  }

  lemma CommitMoves(s: State, id: nat)
    requires id in s.txns && s.txns[id].phase.Ready?
    ensures Moved(s, Commit(s, id), id)
  {
  }

  /** The answer of a commit: the match exactly on a mutual like that is now stored. */
  lemma CommitAnswers(s: State, t: nat)
    requires Inv(s) && t in s.txns && s.txns[t].phase.Ready?
    ensures var s', x := Commit(s, t), s.txns[t];
            && t in s'.txns && s'.txns[t] == x.(phase := Committed(x.phase.match_)) && AnswerHolds(s', s'.txns[t])
            && (x.phase.match_.Some? <==> x.direction == Like && (x.target, x.source) in s'.swipes
                                          && s'.swipes[(x.target, x.source)] == Like)
  {
    assert TxnInv(s, s.txns[t]);
  }

  lemma StepKeepsAnswers(s: State, step: Step)
    requires Inv(s) && AnswersHold(s)
    ensures AnswersHold(Apply(true, s, step))
  {
    var s' := Apply(true, s, step);
    StepKeepsRows(s, step);
    forall t | t in s'.txns && s'.txns[t].phase.Committed? ensures AnswerHolds(s', s'.txns[t]) {
      StepCompletes(s, step, t);
      if t in s.txns && s.txns[t].phase.Committed? {
        assert AnswerHolds(s, s.txns[t]);
      } else {
        CommitAnswers(s, t);
      }
    }
  }

  lemma StepKeepsGiven(s: State, step: Step)
    requires Inv(s) && SwipesWereGiven(s)
    ensures SwipesWereGiven(Apply(true, s, step))
  {
    var s' := Apply(true, s, step);
    StepKeepsRows(s, step);
    forall key | key in s'.swipes ensures exists t :: Gave(s', t, key) {
      if key in s.swipes {
        var t :| Gave(s, t, key);
        StepCompletes(s, step, t);
        assert Gave(s', t, key);
      } else {
        NewSwipeIsOfCommit(s, step, key);
        assert Gave(s', step.id, key);
      }
    }
  }

  lemma NewSwipeIsOfCommit(s: State, step: Step, key: Pair)
    requires Inv(s) && key in Apply(true, s, step).swipes && key !in s.swipes
    ensures Gave(Apply(true, s, step), step.id, key)
  {
    if step.Advance? && step.id in s.txns && s.txns[step.id].phase.Ready? {
      CommitAnswers(s, step.id);
    } else {
      OnlyCommitsWrite(s, step);
    }
  }

  lemma {:induction false} RunKeepsAnswers(s: State, steps: seq<Step>)
    requires Inv(s) && AnswersHold(s) && SwipesWereGiven(s)
    ensures AnswersHold(Run(true, s, steps)) && SwipesWereGiven(Run(true, s, steps))
    decreases |steps|
  {
    if steps != [] {
      StepKeepsInv(s, steps[0]);
      StepKeepsAnswers(s, steps[0]);
      StepKeepsGiven(s, steps[0]);
      RunKeepsAnswers(Apply(true, s, steps[0]), steps[1..]);
    }
  }

  /**
   * In every interleaving, likes and passes alike: the swipe of each committed call
   * is stored with its direction, every stored swipe is that of a committed call,
   * and a call that was told a match was told the room of its pair's match.
   */
  lemma CommittedCallsAreStored(steps: seq<Step>)
    ensures AnswersHold(Run(true, EMPTY, steps)) && SwipesWereGiven(Run(true, EMPTY, steps))
  {
    RunKeepsAnswers(EMPTY, steps);
  }

  /** In every interleaving, a call is told a match exactly when its own like and the reciprocal one are stored at its commit. */
  lemma ToldExactlyOnMutualLike(steps: seq<Step>, step: Step, t: nat)
    requires var s := Run(true, EMPTY, steps); !(t in s.txns && s.txns[t].phase.Committed?)
    requires var s' := Apply(true, Run(true, EMPTY, steps), step); t in s'.txns && s'.txns[t].phase.Committed?
    ensures var s' := Apply(true, Run(true, EMPTY, steps), step);
            var x := s'.txns[t];
            && (x.phase.result.Some? <==>
                  && (x.source, x.target) in s'.swipes && s'.swipes[(x.source, x.target)] == Like
                  && (x.target, x.source) in s'.swipes && s'.swipes[(x.target, x.source)] == Like)
            && (x.phase.result.Some? ==> MatchOf(s', x.source, x.target) == x.phase.result)
  {
    RunKeepsInv(EMPTY, steps);
    StepCompletes(Run(true, EMPTY, steps), step, t);
    CommitAnswers(Run(true, EMPTY, steps), t);
  }

  // ----- A call that runs alone -----

  /** The state after `n` steps of a call that nobody interrupts. */
  function Alone(s: State, t: nat, n: nat): State
    decreases n
  {
    if n == 0 then s else Alone(Apply(true, s, Advance(t)), t, n - 1)
  }

  predicate CommittedIn(s: State, t: nat) { t in s.txns && s.txns[t].phase.Committed? }

  /** Nobody in the way, a call commits if it is about another user and makes or repeats the swipe; it is refused otherwise. */
  lemma AloneItCommits(s: State, t: nat)
    requires t in s.txns && s.txns[t].phase.Begin? && s.locks == map[]
    ensures var x, r := s.txns[t], Alone(s, t, 6);
            if x.source != x.target && ((x.source, x.target) in s.swipes ==> s.swipes[(x.source, x.target)] == x.direction)
            then CommittedIn(r, t) else t in r.txns && r.txns[t].phase.Aborted?
  {
    var s1 := Apply(true, s, Advance(t));
    assert s1 == TakeLock(true, s, t) && s1.txns[t].phase.Locked?;
    var s2 := Apply(true, s1, Advance(t));
    assert s2 == InsertOrResolveSwipe(s1, t);
    assert Alone(s, t, 6) == Alone(s1, t, 5) == Alone(s2, t, 4);
    if s2.txns[t].phase.Aborted? { FinishedRests(s2, t, 4); } else { AloneFromSwipe(s2, t); }
  }

  lemma {:induction false} FinishedRests(s: State, t: nat, n: nat)
    requires t in s.txns && Finished(s.txns[t])
    ensures Alone(s, t, n) == s
    decreases n
  {
    if n > 0 { FinishedRests(s, t, n - 1); }
  }

  lemma AloneFromSwipe(s: State, t: nat)
    requires t in s.txns && s.txns[t].phase.Swiped?
    ensures CommittedIn(Alone(s, t, 4), t)
  {
    MiddleStepsMove(s, t);
    var s1 := Apply(true, s, Advance(t));
    assert s1 == CheckReciprocal(s, t);
    if s1.txns[t].phase.Ready? { AloneFromReady(s1, t, 3); } else { AloneFromMutual(s1, t); }
  }

  lemma AloneFromMutual(s: State, t: nat)
    requires t in s.txns && s.txns[t].phase.Mutual?
    ensures CommittedIn(Alone(s, t, 3), t)
  {
    MiddleStepsMove(s, t);
    var s1 := Apply(true, s, Advance(t));
    assert s1 == FindMatchOrInsertRoom(s, t);
    if s1.txns[t].phase.Ready? { AloneFromReady(s1, t, 2); } else { AloneFromRoom(s1, t); }
  }

  lemma AloneFromRoom(s: State, t: nat)
    requires t in s.txns && s.txns[t].phase.RoomInserted?
    ensures CommittedIn(Alone(s, t, 2), t)
  {
    MiddleStepsMove(s, t);
    var s1 := Apply(true, s, Advance(t));
    assert s1 == InsertMatch(s, t);
    AloneFromReady(s1, t, 1);
  }

  lemma AloneFromReady(s: State, t: nat, n: nat)
    requires t in s.txns && s.txns[t].phase.Ready? && n >= 1
    ensures CommittedIn(Alone(s, t, n), t)
  {
    CommitMoves(s, t);
    assert Apply(true, s, Advance(t)) == Commit(s, t);
    FinishedRests(Commit(s, t), t, n - 1);
  }

  /** Without the lock two simultaneous likes miss each other: the lock is needed. */
  lemma WithoutLockMutualLikeIsMissed()
    ensures exists steps ::
      var s := Run(false, EMPTY, steps);
      Likes(s.swipes, 1, 2) && Likes(s.swipes, 2, 1) && (1, 2) !in s.matches
  {
    var round := [Advance(0), Advance(1)];
    var one := round + (round + (round + (round + [])));
    var steps := [Start(0, 1, 2, Like), Start(1, 2, 1, Like)] + one;
    RunPair(EMPTY, Start(0, 1, 2, Like), Start(1, 2, 1, Like), one);
    RunPair(BothAt(Begin), Advance(0), Advance(1), round + (round + (round + [])));
    RunPair(BothAt(Locked), Advance(0), Advance(1), round + (round + []));
    RunPair(BothAt(Swiped(true)), Advance(0), Advance(1), round + []);
    RunPair(BothAt(Ready(true, None, false)), Advance(0), Advance(1), []);
    RoundWithoutLock(Begin, Locked);
    RoundWithoutLock(Locked, Swiped(true));
    RoundWithoutLock(Swiped(true), Ready(true, None, false));
    var s := Apply(false, Apply(false, BothAt(Ready(true, None, false)), Advance(0)), Advance(1));
    assert Run(false, EMPTY, steps) == s;
  }

  /** Two transactions, 1 likes 2 and 2 likes 1, side by side in the same phase. */
  function BothAt(p: Phase): State {
    EMPTY.(txns := map[0 := Txn(1, 2, Like, p), 1 := Txn(2, 1, Like, p)])
  }

  lemma RoundWithoutLock(p: Phase, q: Phase)
    requires (p, q) in {(Begin, Locked), (Locked, Swiped(true)), (Swiped(true), Ready(true, None, false))}
    ensures Apply(false, Apply(false, BothAt(p), Advance(0)), Advance(1)) == BothAt(q)
  {
    var s := Apply(false, BothAt(p), Advance(0));
    assert s.txns == map[0 := Txn(1, 2, Like, q), 1 := Txn(2, 1, Like, p)];
    assert Apply(false, s, Advance(1)).txns == BothAt(q).txns;
  }

  lemma RunPair(s: State, a: Step, b: Step, rest: seq<Step>)
    ensures Run(false, s, [a, b] + rest) == Run(false, Apply(false, Apply(false, s, a), b), rest)
  {
    assert ([a, b] + rest)[1..] == [b] + rest;
    assert ([b] + rest)[1..] == rest;
  }
}
