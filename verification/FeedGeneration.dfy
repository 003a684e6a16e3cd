/**
 * The generation token of one viewer's ranked feed. Requests and invalidations
 * interleave at every Redis command and database read; Redis may lose or corrupt
 * keys and fail any command. A write that was issued may take effect never, late,
 * or again after a reconnect, whatever its caller was told and has done since.
 */
module FeedGeneration {
  import opened Common

  type Token = nat

  /** One cached ranking of a namespace: a filter hash and a batch key. */
  type Slot = nat

  /** `readAt` is the moment of the first database read behind the ranking. */
  datatype Ranking = Ranking(readAt: nat)

  datatype GenValue = Missing | Corrupt | IsToken(token: Token)

  /** An issued write of the generation key: SET or SET NX, and when an invalidation issued it. */
  datatype GenWrite = GenWrite(onlyIfMissing: bool, bumpedAt: Option<nat>)

  datatype RankingWrite = RankingWrite(token: Token, slot: Slot, ranking: Ranking)

  datatype Phase =
    | Begin
    | Replacing(candidate: Token)
    | Claiming(candidate: Token)
    | Rereading
    | HasToken(token: Token)
    | Reading(token: Token, slot: Slot)
    | Computed(token: Token, slot: Slot, ranking: Ranking)
    | Loaded(token: Token, ranking: Ranking)
    | Served(ranking: Ranking)
    | Rejected

  /** `bumpedBefore` is the issue time of the newest invalidation in effect when the request started. */
  datatype Request = Request(bumpedBefore: nat, phase: Phase)

  /**
   * `lastBump` is the issue time of the newest invalidation whose write has taken
   * effect, `acknowledged` that of the newest one reported as a success. A token
   * is in `used` once its write took effect or its request went on with it.
   */
  datatype State = State(
    generation: GenValue, rankings: map<(Token, Slot), Ranking>,
    genWrites: map<Token, GenWrite>, rankingWrites: set<RankingWrite>, requests: map<nat, Request>,
    nextToken: Token, clock: nat, lastBump: nat, acknowledged: nat, used: set<Token>)

  /** What a request does next; `failed` reads answer a miss. */
  datatype Action =
    | GetGeneration(failed: bool)
    | ReplaceAnswered
    | ClaimAnswered(taken: bool)
    | RereadGeneration(failed: bool)
    | GetRanking(slot: Slot, failed: bool)
    | ReadDatabase
    | SetRanking
    | ContinueBatch
    | Serve
    | Reject

  /** `Land` and `LandRanking` are the effects of issued writes. */
  datatype Step =
    | Start(id: nat)
    | Act(id: nat, action: Action)
    | IssueBump
    | AcknowledgeBump(token: Token)
    | Land(token: Token)
    | LandRanking(write: RankingWrite)
    | LoseGeneration
    | CorruptGeneration
    | LoseRanking(token: Token, slot: Slot)

  // ----- Steps -----

  function SetPhase(s: State, i: nat, p: Phase): State
    requires i in s.requests
  {
    s.(requests := s.requests[i := s.requests[i].(phase := p)])
  }

  /** `cache.get` answers a miss on any failure. */
  function Seen(s: State, failed: bool): GenValue { if failed then Missing else s.generation }

  /** A request draws a fresh candidate and issues its write. */
  function IssueCandidate(s: State, i: nat, onlyIfMissing: bool): State
    requires i in s.requests
  {
    var c := s.nextToken;
    SetPhase(s, i, if onlyIfMissing then Claiming(c) else Replacing(c))
      .(nextToken := c + 1, genWrites := s.genWrites[c := GenWrite(onlyIfMissing, None)])
  }

  /** The request goes on with its own candidate: the write succeeded, or failed and is ignored. */
  function Adopt(s: State, i: nat, c: Token): State
    requires i in s.requests
  {
    SetPhase(s, i, HasToken(c)).(used := s.used + {c})
  }

  function GetGenerationStep(s: State, i: nat, failed: bool): State
    requires i in s.requests
  {
    match Seen(s, failed)
    case IsToken(t) => SetPhase(s, i, HasToken(t))
    case Corrupt => IssueCandidate(s, i, false)
    case Missing => IssueCandidate(s, i, true)
  }

  function RereadStep(s: State, i: nat, failed: bool): State
    requires i in s.requests
  {
    match Seen(s, failed)
    case IsToken(t) => SetPhase(s, i, HasToken(t))
    case _ => IssueCandidate(s, i, false)
  }

  function GetRankingStep(s: State, i: nat, slot: Slot, failed: bool): State
    requires i in s.requests && s.requests[i].phase.HasToken?
  {
    var t := s.requests[i].phase.token;
    if !failed && (t, slot) in s.rankings then SetPhase(s, i, Loaded(t, s.rankings[(t, slot)]))
    else SetPhase(s, i, Reading(t, slot))
  }

  function BumpStep(s: State): State {
    s.(nextToken := s.nextToken + 1, genWrites := s.genWrites[s.nextToken := GenWrite(false, Some(s.clock))])
  }

  predicate Lands(s: State, t: Token) {
    t in s.genWrites && (s.genWrites[t].onlyIfMissing ==> s.generation.Missing?)
  }

  function BumpAfter(s: State, t: Token): nat
    requires t in s.genWrites
  {
    if s.genWrites[t].bumpedAt.Some? then Max(s.lastBump, s.genWrites[t].bumpedAt.value) else s.lastBump
  }

  function LandStep(s: State, t: Token): State
    requires t in s.genWrites
  {
    s.(generation := IsToken(t), used := s.used + {t}, lastBump := BumpAfter(s, t))
  }

  predicate Succeeded(s: State, t: Token) {
    t in s.genWrites && s.genWrites[t].bumpedAt.Some? && t in s.used
  }

  function DoAction(s: State, i: nat, action: Action): State
    requires i in s.requests
  {
    var p := s.requests[i].phase;
    match action
    case GetGeneration(failed) => if p.Begin? then GetGenerationStep(s, i, failed) else s
    case ReplaceAnswered => if p.Replacing? then Adopt(s, i, p.candidate) else s
    case ClaimAnswered(taken) =>
      if !p.Claiming? then s else if taken then SetPhase(s, i, Rereading) else Adopt(s, i, p.candidate)
    case RereadGeneration(failed) => if p.Rereading? then RereadStep(s, i, failed) else s
    case GetRanking(slot, failed) => if p.HasToken? then GetRankingStep(s, i, slot, failed) else s
    case ReadDatabase => if p.Reading? then SetPhase(s, i, Computed(p.token, p.slot, Ranking(s.clock))) else s
    case SetRanking => if p.Computed? then SetRankingStep(s, i) else s
    case ContinueBatch => if p.Loaded? then SetPhase(s, i, HasToken(p.token)) else s
    case Serve => if p.Loaded? then SetPhase(s, i, Served(p.ranking)) else s
    case Reject => if !p.Served? then SetPhase(s, i, Rejected) else s
  }

  /** The write is issued; the request goes on with what it computed, whatever becomes of the write. */
  function SetRankingStep(s: State, i: nat): State
    requires i in s.requests && s.requests[i].phase.Computed?
  {
    var p := s.requests[i].phase;
    SetPhase(s, i, Loaded(p.token, p.ranking))
      .(rankingWrites := s.rankingWrites + {RankingWrite(p.token, p.slot, p.ranking)})
  }

  function Do(s: State, step: Step): State {
    match step
    case Start(i) => if i in s.requests then s else s.(requests := s.requests[i := Request(s.lastBump, Begin)])
    case Act(i, action) => if i in s.requests then DoAction(s, i, action) else s
    case IssueBump => BumpStep(s)
    case AcknowledgeBump(t) =>
      if Succeeded(s, t) then s.(acknowledged := Max(s.acknowledged, s.genWrites[t].bumpedAt.value)) else s
    case Land(t) => if Lands(s, t) then LandStep(s, t) else s
    case LandRanking(w) =>
      if w in s.rankingWrites then s.(rankings := s.rankings[(w.token, w.slot) := w.ranking]) else s
    case LoseGeneration => s.(generation := Missing)
    case CorruptGeneration => s.(generation := Corrupt)
    case LoseRanking(t, slot) => s.(rankings := s.rankings - {(t, slot)})
  }

  /** Every step takes time. */
  function Apply(s: State, step: Step): State { Tick(Do(s, step)) }

  function Tick(s: State): State { s.(clock := s.clock + 1) }

  function Run(s: State, steps: seq<Step>): State
    decreases |steps|
  {
    if steps == [] then s else Run(Apply(s, steps[0]), steps[1..])
  }

  /** Redis holds anything but a valid token, and no ranking; nothing is in flight. */
  predicate Initial(s: State) {
    && !s.generation.IsToken? && s.rankings == map[] && s.requests == map[]
    && s.genWrites == map[] && s.rankingWrites == {} && s.used == {}
    && s.acknowledged <= s.lastBump <= s.clock
  }

  // ----- Rankings of a token -----

  /** A ranking that is, or may still become, the cached ranking of a token. */
  ghost predicate Source(s: State, t: Token, r: Ranking) {
    || (exists k :: k in s.rankings && k.0 == t && s.rankings[k] == r)
    || (exists w :: w in s.rankingWrites && w.token == t && w.ranking == r)
    || (exists i :: i in s.requests && HasComputed(s.requests[i].phase, t, r))
  }

  predicate HasComputed(p: Phase, t: Token, r: Ranking) { p.Computed? && p.token == t && p.ranking == r }

  ghost predicate CleanFrom(s: State, t: Token, bump: nat) {
    forall r :: Source(s, t, r) ==> r.readAt >= bump
  }

  /**
   * A late write: it puts a token back, or into effect, under which a ranking
   * older than the newest invalidation in effect exists.
   */
  ghost predicate Late(s: State, t: Token) {
    Lands(s, t) && !CleanFrom(s, t, BumpAfter(s, t))
  }

  ghost predicate AllTimely(s: State, steps: seq<Step>)
    decreases |steps|
  {
    steps == [] || ((steps[0].Land? ==> !Late(s, steps[0].token)) && AllTimely(Apply(s, steps[0]), steps[1..]))
  }

  /** An action changes the phase of its own request and of no other. */
  lemma ActionFrame(s: State, i: nat, action: Action)
    requires i in s.requests
    ensures OnlyPhaseMoves(s, DoAction(s, i, action), i)
  {
    if action.GetGeneration? { GetGenerationFrame(s, i, action.failed); }
    if action.GetRanking? && s.requests[i].phase.HasToken? { GetRankingFrame(s, i, action.slot, action.failed); }
  }

  predicate OnlyPhaseMoves(s: State, s': State, i: nat)
    requires i in s.requests
  {
    i in s'.requests && s'.requests == s.requests[i := s.requests[i].(phase := s'.requests[i].phase)]
  }

  lemma GetGenerationFrame(s: State, i: nat, failed: bool)
    requires i in s.requests
    ensures OnlyPhaseMoves(s, GetGenerationStep(s, i, failed), i) && OnlyPhaseMoves(s, RereadStep(s, i, failed), i)
  {
  }

  lemma GetRankingFrame(s: State, i: nat, slot: Slot, failed: bool)
    requires i in s.requests && s.requests[i].phase.HasToken?
    ensures OnlyPhaseMoves(s, GetRankingStep(s, i, slot, failed), i)
  {
  }

  // ----- What holds in every run -----

  predicate RequestBase(s: State, r: Request) {
    && r.bumpedBefore <= s.lastBump
    && match r.phase
       case Replacing(c) => c in s.genWrites && s.genWrites[c].bumpedAt.None?
       case Claiming(c) => c in s.genWrites && s.genWrites[c].bumpedAt.None?
       case HasToken(t) => t in s.used
       case Reading(t, _) => t in s.used
       case Computed(t, _, _) => t in s.used
       case Loaded(t, _) => t in s.used
       case _ => true
  }

  predicate WriteBase(s: State, t: Token)
    requires t in s.genWrites
  {
    var at := s.genWrites[t].bumpedAt;
    t < s.nextToken && (at.Some? ==> at.value <= s.clock && (t in s.used ==> at.value <= s.lastBump))
  }

  /** Bookkeeping that no late or lost write can disturb. */
  predicate Base(s: State) {
    && s.acknowledged <= s.lastBump <= s.clock
    && (forall t :: t in s.genWrites ==> WriteBase(s, t))
    && (forall t :: t in s.used ==> t < s.nextToken)
    && (s.generation.IsToken? ==> s.generation.token in s.used)
    && (forall k :: k in s.rankings ==> k.0 in s.used)
    && (forall w :: w in s.rankingWrites ==> w.token in s.used)
    && forall i :: i in s.requests ==> RequestBase(s, s.requests[i])
  }

  /** A request changes its phase to one whose token, if any, is in use, and may issue the write of a ranking. */
  lemma PhaseKeepsBase(s: State, s': State, i: nat, p: Phase)
    requires Base(s) && i in s.requests
    requires s' == SetPhase(s, i, p).(rankingWrites := s'.rankingWrites)
    requires RequestBase(s, s.requests[i].(phase := p))
    requires forall w :: w in s'.rankingWrites ==> w.token in s.used
    ensures Base(s')
  {
    forall j | j in s'.requests ensures RequestBase(s', s'.requests[j]) {
      if j != i { assert RequestBase(s, s.requests[j]); }
    }
    forall t | t in s'.genWrites ensures WriteBase(s', t) { assert WriteBase(s, t); }
  }

  lemma IssueKeepsBase(s: State, i: nat, onlyIfMissing: bool)
    requires Base(s) && i in s.requests
    ensures Base(IssueCandidate(s, i, onlyIfMissing))
  {
    var s' := IssueCandidate(s, i, onlyIfMissing);
    assert RequestBase(s, s.requests[i]);
    forall j | j in s'.requests ensures RequestBase(s', s'.requests[j]) {
      if j != i { assert RequestBase(s, s.requests[j]); }
    }
    forall t | t in s'.genWrites ensures WriteBase(s', t) {
      if t in s.genWrites { assert WriteBase(s, t); }
    }
  }

  lemma AdoptKeepsBase(s: State, i: nat, c: Token)
    requires Base(s) && i in s.requests && c in s.genWrites && s.genWrites[c].bumpedAt.None?
    ensures Base(Adopt(s, i, c))
  {
    var s' := Adopt(s, i, c);
    assert RequestBase(s, s.requests[i]) && WriteBase(s, c);
    forall j | j in s'.requests ensures RequestBase(s', s'.requests[j]) {
      if j != i { assert RequestBase(s, s.requests[j]); }
    }
    forall t | t in s'.genWrites ensures WriteBase(s', t) { assert WriteBase(s, t); }
  }

  lemma ActionKeepsBase(s: State, i: nat, action: Action)
    requires Base(s) && i in s.requests
    ensures Base(DoAction(s, i, action))
  {
    var p := s.requests[i].phase;
    assert RequestBase(s, s.requests[i]);
    match action {
      case GetGeneration(failed) =>
        if p.Begin? { ReadGenerationKeepsBase(s, i, failed, true); }
      case RereadGeneration(failed) =>
        if p.Rereading? { ReadGenerationKeepsBase(s, i, failed, false); }
      case ReplaceAnswered => if p.Replacing? { AdoptKeepsBase(s, i, p.candidate); }
      case ClaimAnswered(taken) =>
        if p.Claiming? {
          if taken { PhaseKeepsBase(s, SetPhase(s, i, Rereading), i, Rereading); } else { AdoptKeepsBase(s, i, p.candidate); }
        }
      case _ =>
        var s' := DoAction(s, i, action);
        if s' != s { PhaseKeepsBase(s, s', i, s'.requests[i].phase); }
    }
  }

  lemma ReadGenerationKeepsBase(s: State, i: nat, failed: bool, first: bool)
    requires Base(s) && i in s.requests
    ensures Base(if first then GetGenerationStep(s, i, failed) else RereadStep(s, i, failed))
  {
    assert RequestBase(s, s.requests[i]);
    IssueKeepsBase(s, i, true);
    IssueKeepsBase(s, i, false);
    if !failed && s.generation.IsToken? {
      PhaseKeepsBase(s, SetPhase(s, i, HasToken(s.generation.token)), i, HasToken(s.generation.token));
    }
  }

  lemma LandKeepsBase(s: State, t: Token)
    requires Base(s) && Lands(s, t)
    ensures Base(LandStep(s, t))
  {
    var s' := LandStep(s, t);
    assert WriteBase(s, t);
    forall u | u in s'.genWrites ensures WriteBase(s', u) { assert WriteBase(s, u); }
    forall i | i in s'.requests ensures RequestBase(s', s'.requests[i]) { assert RequestBase(s, s.requests[i]); }
  }

  /** Issuing and acknowledging an invalidation, the write of a ranking, and the loss of keys. */
  lemma CacheStepKeepsBase(s: State, step: Step)
    requires Base(s) && !step.Start? && !step.Act? && !step.Land?
    ensures Base(Do(s, step))
  {
    var s' := Do(s, step);
    if step.AcknowledgeBump? && Succeeded(s, step.token) { assert WriteBase(s, step.token); }
    forall t | t in s'.genWrites ensures WriteBase(s', t) {
      if t in s.genWrites { assert WriteBase(s, t); }
    }
    forall i | i in s'.requests ensures RequestBase(s', s'.requests[i]) { assert RequestBase(s, s.requests[i]); }
  }

  lemma StartKeepsBase(s: State, i: nat)
    requires Base(s) && i !in s.requests
    ensures Base(s.(requests := s.requests[i := Request(s.lastBump, Begin)]))
  {
    var s' := s.(requests := s.requests[i := Request(s.lastBump, Begin)]);
    forall t | t in s'.genWrites ensures WriteBase(s', t) { assert WriteBase(s, t); }
    forall j | j in s'.requests ensures RequestBase(s', s'.requests[j]) {
      if j != i { assert RequestBase(s, s.requests[j]); }
    }
  }

  lemma TimeKeepsBase(s: State)
    requires Base(s)
    ensures Base(Tick(s))
  {
    var s' := Tick(s);
    forall t | t in s'.genWrites ensures WriteBase(s', t) { assert WriteBase(s, t); }
    forall i | i in s'.requests ensures RequestBase(s', s'.requests[i]) { assert RequestBase(s, s.requests[i]); }
  }

  lemma DoKeepsBase(s: State, step: Step)
    requires Base(s)
    ensures Base(Do(s, step))
  {
    match step
    case Start(i) => if i !in s.requests { StartKeepsBase(s, i); }
    case Act(i, action) => if i in s.requests { ActionKeepsBase(s, i, action); }
    case Land(t) => if Lands(s, t) { LandKeepsBase(s, t); }
    case _ => CacheStepKeepsBase(s, step);
  }

  lemma StepKeepsBase(s: State, step: Step)
    requires Base(s)
    ensures Base(Apply(s, step))
  {
    DoKeepsBase(s, step);
    TimeKeepsBase(Do(s, step));
  }

  // ----- What timely runs keep -----

  /** No step makes an old ranking: whatever is new was read just now. */
  lemma SourcesAreKnown(s: State, step: Step, t: Token, r: Ranking)
    requires Source(Apply(s, step), t, r)
    ensures Source(s, t, r) || r.readAt >= s.clock
  {
    var s' := Apply(s, step);
    if k :| k in s'.rankings && k.0 == t && s'.rankings[k] == r {
      CachedWasKnown(s, step, k);
    } else if w :| w in s'.rankingWrites && w.token == t && w.ranking == r {
      IssuedWasKnown(s, step, w);
    } else {
      var i :| i in s'.requests && HasComputed(s'.requests[i].phase, t, r);
      ComputedWasKnown(s, step, i, t, r);
    }
  }

  lemma CachedWasKnown(s: State, step: Step, k: (Token, Slot))
    requires k in Apply(s, step).rankings
    ensures Source(s, k.0, Apply(s, step).rankings[k])
  {
    var r := Apply(s, step).rankings[k];
    if !(k in s.rankings && s.rankings[k] == r) {
      assert step.write in s.rankingWrites && step.write.token == k.0 && step.write.ranking == r;
    }
  }

  lemma IssuedWasKnown(s: State, step: Step, w: RankingWrite)
    requires w in Apply(s, step).rankingWrites
    ensures Source(s, w.token, w.ranking)
  {
    if w !in s.rankingWrites {
      assert HasComputed(s.requests[step.id].phase, w.token, w.ranking);
    }
  }

  lemma ComputedWasKnown(s: State, step: Step, i: nat, t: Token, r: Ranking)
    requires i in Apply(s, step).requests && HasComputed(Apply(s, step).requests[i].phase, t, r)
    ensures Source(s, t, r) || r.readAt >= s.clock
  {
    if step.Act? && step.id in s.requests { ActionFrame(s, step.id, step.action); }
    if !(i in s.requests && HasComputed(s.requests[i].phase, t, r)) {
      assert step.Act? && step.action.ReadDatabase?;
    }
  }

  lemma StepKeepsCleanFrom(s: State, step: Step, t: Token, bump: nat)
    requires CleanFrom(s, t, bump) && bump <= s.clock
    ensures CleanFrom(Apply(s, step), t, bump)
  {
    forall r | Source(Apply(s, step), t, r) ensures r.readAt >= bump {
      SourcesAreKnown(s, step, t, r);
    }
  }

  ghost predicate RequestClean(s: State, r: Request) {
    match r.phase
    case Replacing(c) => CleanFrom(s, c, r.bumpedBefore)
    case Claiming(c) => CleanFrom(s, c, r.bumpedBefore)
    case HasToken(t) => CleanFrom(s, t, r.bumpedBefore)
    case Reading(t, _) => CleanFrom(s, t, r.bumpedBefore)
    case Computed(t, _, _) => CleanFrom(s, t, r.bumpedBefore)
    case Loaded(t, ranking) => CleanFrom(s, t, r.bumpedBefore) && ranking.readAt >= r.bumpedBefore
    case Served(ranking) => ranking.readAt >= r.bumpedBefore
    case _ => true
  }

  /** The stored token, and the token of each request, lead to no ranking from before the invalidations that count for it. */
  ghost predicate Inv(s: State) {
    && Base(s)
    && (s.generation.IsToken? ==> CleanFrom(s, s.generation.token, s.lastBump))
    && forall i :: i in s.requests ==> RequestClean(s, s.requests[i])
  }

  /** A token that nobody used yet has no ranking at all. */
  lemma UnusedIsClean(s: State, t: Token, bump: nat)
    requires Base(s) && t !in s.used
    ensures CleanFrom(s, t, bump)
  {
    forall r ensures !Source(s, t, r) {
      forall i | i in s.requests ensures !HasComputed(s.requests[i].phase, t, r) { assert RequestBase(s, s.requests[i]); }
    }
  }

  /** A request whose phase does not change stays clean. */
  lemma SamePhaseKeepsClean(s: State, step: Step, r: Request)
    requires RequestClean(s, r) && r.bumpedBefore <= s.clock
    ensures RequestClean(Apply(s, step), r)
  {
    match r.phase
    case Replacing(c) => StepKeepsCleanFrom(s, step, c, r.bumpedBefore);
    case Claiming(c) => StepKeepsCleanFrom(s, step, c, r.bumpedBefore);
    case HasToken(t) => StepKeepsCleanFrom(s, step, t, r.bumpedBefore);
    case Reading(t, _) => StepKeepsCleanFrom(s, step, t, r.bumpedBefore);
    case Computed(t, _, _) => StepKeepsCleanFrom(s, step, t, r.bumpedBefore);
    case Loaded(t, _) => StepKeepsCleanFrom(s, step, t, r.bumpedBefore);
    case _ =>
  }

  /** The token that the phase of a request works with. */
  function TokenOf(p: Phase): Option<Token> {
    match p
    case Replacing(c) => Some(c)
    case Claiming(c) => Some(c)
    case HasToken(t) => Some(t)
    case Reading(t, _) => Some(t)
    case Computed(t, _, _) => Some(t)
    case Loaded(t, _) => Some(t)
    case _ => None
  }

  /** A moving request keeps its token, takes the stored one, or draws one that nobody used. */
  lemma NextToken(s: State, i: nat, action: Action)
    requires i in s.requests
    ensures var t := TokenOf(DoAction(s, i, action).requests[i].phase);
            t.Some? ==> t == TokenOf(s.requests[i].phase) || s.generation == IsToken(t.value) || t.value == s.nextToken
  {
  }

  /** It loads only a ranking that its token has. */
  lemma LoadedWasThere(s: State, i: nat, action: Action)
    requires i in s.requests && DoAction(s, i, action).requests[i].phase.Loaded? && !s.requests[i].phase.Loaded?
    ensures var p, p' := s.requests[i].phase, DoAction(s, i, action).requests[i].phase;
            TokenOf(p) == Some(p'.token) && Source(s, p'.token, p'.ranking)
  {
    var p := s.requests[i].phase;
    if p.Computed? { assert HasComputed(p, p.token, p.ranking); }
  }

  lemma NextTokenIsClean(s: State, i: nat, action: Action, t: Token)
    requires Inv(s) && i in s.requests && TokenOf(DoAction(s, i, action).requests[i].phase) == Some(t)
    ensures CleanFrom(s, t, s.requests[i].bumpedBefore)
  {
    var r := s.requests[i];
    assert RequestBase(s, r) && RequestClean(s, r);
    NextToken(s, i, action);
    if TokenOf(r.phase) != Some(t) && s.generation != IsToken(t) {
      UnusedIsClean(s, t, r.bumpedBefore);
    }
  }

  lemma CleanByToken(s: State, r: Request)
    requires TokenOf(r.phase).Some? ==> CleanFrom(s, TokenOf(r.phase).value, r.bumpedBefore)
    requires r.phase.Loaded? || r.phase.Served? ==> r.phase.ranking.readAt >= r.bumpedBefore
    ensures RequestClean(s, r)
  {
  }

  lemma NextAnswerIsClean(s: State, i: nat, action: Action)
    requires Inv(s) && i in s.requests
    ensures var p' := DoAction(s, i, action).requests[i].phase;
            p'.Loaded? || p'.Served? ==> p'.ranking.readAt >= s.requests[i].bumpedBefore
  {
    var r, p' := s.requests[i], DoAction(s, i, action).requests[i].phase;
    assert RequestClean(s, r);
    if p'.Loaded? && !r.phase.Loaded? {
      LoadedWasThere(s, i, action);
      assert CleanFrom(s, p'.token, r.bumpedBefore);
    }
  }

  lemma MovingRequestStaysClean(s: State, i: nat, action: Action)
    requires Inv(s) && i in s.requests
    ensures i in Apply(s, Act(i, action)).requests
    ensures RequestClean(Apply(s, Act(i, action)), Apply(s, Act(i, action)).requests[i])
  {
    var s', r := Apply(s, Act(i, action)), s.requests[i];
    ActionFrame(s, i, action);
    assert RequestBase(s, r);
    var p' := DoAction(s, i, action).requests[i].phase;
    assert s'.requests[i] == r.(phase := p');
    if TokenOf(p').Some? {
      NextTokenIsClean(s, i, action, TokenOf(p').value);
      StepKeepsCleanFrom(s, Act(i, action), TokenOf(p').value, r.bumpedBefore);
    }
    NextAnswerIsClean(s, i, action);
    CleanByToken(s', r.(phase := p'));
  }

  /** Only the request that acts, or starts, changes. */
  lemma OthersUntouched(s: State, step: Step, i: nat)
    requires i in Apply(s, step).requests && step != Act(i, if step.Act? then step.action else Serve)
    ensures if i in s.requests then Apply(s, step).requests[i] == s.requests[i]
            else Apply(s, step).requests[i].phase == Begin
  {
    if step.Act? && step.id in s.requests { ActionFrame(s, step.id, step.action); }
  }

  lemma RequestsStayClean(s: State, step: Step, i: nat)
    requires Inv(s) && i in Apply(s, step).requests
    ensures RequestClean(Apply(s, step), Apply(s, step).requests[i])
  {
    if step.Act? && step.id == i {
      MovingRequestStaysClean(s, i, step.action);
    } else {
      OthersUntouched(s, step, i);
      if i in s.requests { OtherRequestStaysClean(s, step, i); }
    }
  }

  lemma OtherRequestStaysClean(s: State, step: Step, i: nat)
    requires Inv(s) && i in s.requests
    ensures RequestClean(Apply(s, step), s.requests[i])
  {
    assert RequestBase(s, s.requests[i]) && RequestClean(s, s.requests[i]);
    SamePhaseKeepsClean(s, step, s.requests[i]);
  }

  lemma StepKeepsInv(s: State, step: Step)
    requires Inv(s) && (step.Land? ==> !Late(s, step.token))
    ensures Inv(Apply(s, step))
  {
    var s' := Apply(s, step);
    StepKeepsBase(s, step);
    forall i | i in s'.requests ensures RequestClean(s', s'.requests[i]) { RequestsStayClean(s, step, i); }
    GenerationStaysClean(s, step);
  }

  /** Apart from the effect of a write the stored token stays or is lost, and no invalidation comes into effect. */
  lemma OnlyLandingsStore(s: State, step: Step)
    requires !(step.Land? && Lands(s, step.token))
    ensures var s' := Apply(s, step);
            s'.lastBump == s.lastBump && (s'.generation == s.generation || !s'.generation.IsToken?)
  {
  }

  lemma GenerationStaysClean(s: State, step: Step)
    requires Inv(s) && (step.Land? ==> !Late(s, step.token))
    ensures var s' := Apply(s, step); s'.generation.IsToken? ==> CleanFrom(s', s'.generation.token, s'.lastBump)
  {
    if step.Land? && Lands(s, step.token) {
      assert WriteBase(s, step.token);
      StepKeepsCleanFrom(s, step, step.token, BumpAfter(s, step.token));
    } else {
      OnlyLandingsStore(s, step);
      if s.generation.IsToken? { StepKeepsCleanFrom(s, step, s.generation.token, s.lastBump); }
    }
  }

  /** In a run without late writes no request serves a ranking from before the invalidations in effect at its start. */
  lemma {:induction false} RunKeepsInv(s: State, steps: seq<Step>)
    requires Inv(s) && AllTimely(s, steps)
    ensures Inv(Run(s, steps))
    decreases |steps|
  {
    if steps != [] {
      StepKeepsInv(s, steps[0]);
      RunKeepsInv(Apply(s, steps[0]), steps[1..]);
    }
  }

  // ----- Main results -----

  lemma {:induction false} RunConcat(s: State, a: seq<Step>, b: seq<Step>)
    ensures Run(s, a + b) == Run(Run(s, a), b)
    ensures AllTimely(s, a + b) <==> AllTimely(s, a) && AllTimely(Run(s, a), b)
    decreases |a|
  {
    if a == [] {
      assert a + b == b;
    } else {
      assert (a + b)[1..] == a[1..] + b;
      RunConcat(Apply(s, a[0]), a[1..], b);
    }
  }

  lemma {:induction false} StartTimesStay(s: State, steps: seq<Step>, i: nat)
    requires i in s.requests
    ensures i in Run(s, steps).requests && Run(s, steps).requests[i].bumpedBefore == s.requests[i].bumpedBefore
    decreases |steps|
  {
    if steps != [] {
      StartTimeStays(s, steps[0], i);
      StartTimesStay(Apply(s, steps[0]), steps[1..], i);
    }
  }

  lemma StartTimeStays(s: State, step: Step, i: nat)
    requires i in s.requests
    ensures i in Apply(s, step).requests && Apply(s, step).requests[i].bumpedBefore == s.requests[i].bumpedBefore
  {
    if step.Act? && step.id in s.requests { ActionFrame(s, step.id, step.action); }
  }

  lemma AcknowledgedGrows(s: State, step: Step)
    ensures s.acknowledged <= Apply(s, step).acknowledged
  {
    if step.Act? && step.id in s.requests { ActionLeavesBumps(s, step.id, step.action); }
  }

  lemma ActionLeavesBumps(s: State, i: nat, action: Action)
    requires i in s.requests
    ensures DoAction(s, i, action).acknowledged == s.acknowledged
  {
  }

  lemma {:induction false} BumpsStay(s: State, steps: seq<Step>)
    ensures s.acknowledged <= Run(s, steps).acknowledged
    decreases |steps|
  {
    if steps != [] {
      AcknowledgedGrows(s, steps[0]);
      BumpsStay(Apply(s, steps[0]), steps[1..]);
    }
  }

  /**
   * A request that starts after a successful bump never serves a ranking whose
   * database reads began before that bump was issued, in any run without late
   * writes: under any mix of concurrent requests and bumps, key loss, corrupt
   * metadata, failed commands, lost answers, and harmless repetitions.
   */
  lemma NeverServesPreBumpRanking(s: State, before: seq<Step>, t: Token, between: seq<Step>, i: nat, after: seq<Step>)
    requires Initial(s) && Succeeded(Run(s, before), t)
    requires AllTimely(s, before + ([AcknowledgeBump(t)] + between) + ([Start(i)] + after))
    requires var started := Run(s, before + ([AcknowledgeBump(t)] + between)); i !in started.requests
    requires var end := Run(s, before + ([AcknowledgeBump(t)] + between) + ([Start(i)] + after));
             i in end.requests && end.requests[i].phase.Served?
    ensures var end := Run(s, before + ([AcknowledgeBump(t)] + between) + ([Start(i)] + after));
            end.requests[i].phase.ranking.readAt >= Run(s, before).genWrites[t].bumpedAt.value
  {
    var mid := [AcknowledgeBump(t)] + between;
    RunConcat(s, before + mid, [Start(i)] + after);
    var started := Run(s, before + mid);
    AcknowledgedSince(s, before, t, between);
    RunKeepsInv(s, before + mid);
    RunKeepsInv(started, [Start(i)] + after);
    assert ([Start(i)] + after)[1..] == after;
    StartTimesStay(Apply(started, Start(i)), after, i);
    var end := Run(started, [Start(i)] + after);
    assert RequestClean(end, end.requests[i]);
  }

  lemma AcknowledgedSince(s: State, before: seq<Step>, t: Token, between: seq<Step>)
    requires Succeeded(Run(s, before), t)
    ensures Run(s, before + ([AcknowledgeBump(t)] + between)).acknowledged >= Run(s, before).genWrites[t].bumpedAt.value
  {
    var bumped := Run(s, before);
    RunConcat(s, before, [AcknowledgeBump(t)] + between);
    RunOne(bumped, AcknowledgeBump(t), between);
    BumpsStay(Apply(bumped, AcknowledgeBump(t)), between);
  }

  // ----- When a write breaks the promise -----

  /** Some request that started after `s` served a ranking older than the invalidations in effect at its start. */
  ghost predicate ServedStale(s: State, s': State) {
    exists i :: i in s'.requests && i !in s.requests && StaleAnswer(s'.requests[i])
  }

  /** Without any further late write, some continuation serves a stale ranking. */
  ghost predicate CanServeStale(s: State) {
    exists steps :: AllTimely(s, steps) && ServedStale(s, Run(s, steps))
  }

  predicate StaleAnswer(r: Request) { r.phase.Served? && r.phase.ranking.readAt < r.bumpedBefore }

  /**
   * The exact condition: from any state that timely writes lead to, a write that
   * takes effect lets a later request serve a ranking from before an invalidation in
   * effect if and only if it is late.
   */
  lemma LateWritesBreakThePromise(s: State, t: Token)
    requires Inv(s) && Lands(s, t)
    ensures CanServeStale(Apply(s, Land(t))) <==> Late(s, t)
  {
    var s1 := Apply(s, Land(t));
    if Late(s, t) {
      var r :| Source(s, t, r) && r.readAt < BumpAfter(s, t);
      SameSources(s, t, r);
      var steps := ServeSource(s1, t, r);
      assert AllTimely(s1, steps) && ServedStale(s1, Run(s1, steps));
    } else {
      StepKeepsInv(s, Land(t));
      forall steps | AllTimely(s1, steps) ensures !ServedStale(s1, Run(s1, steps)) {
        RunKeepsInv(s1, steps);
        NoStaleAnswer(Run(s1, steps));
      }
    }
  }

  lemma NoStaleAnswer(s: State)
    requires Inv(s)
    ensures forall i :: i in s.requests ==> !StaleAnswer(s.requests[i])
  {
    forall i | i in s.requests ensures !StaleAnswer(s.requests[i]) { assert RequestClean(s, s.requests[i]); }
  }

  lemma SameSources(s: State, t: Token, r: Ranking)
    requires Source(s, t, r) && Lands(s, t)
    ensures Source(Apply(s, Land(t)), t, r)
  {
    var s1 := Apply(s, Land(t));
    assert s1.rankings == s.rankings && s1.rankingWrites == s.rankingWrites && s1.requests == s.requests;
  }

  lemma FreshId(requests: map<nat, Request>) returns (i: nat)
    ensures i !in requests
  {
    var n := |requests|;
    IntervalSize(0, n);
    assert !(Interval(0, n) <= requests.Keys) by {
      if Interval(0, n) <= requests.Keys { SubsetSize<int>(Interval(0, n), requests.Keys); }
    }
    var j :| j in Interval(0, n) && j !in requests.Keys;
    i := j;
  }

  predicate NoLands(steps: seq<Step>) { forall k :: 0 <= k < |steps| ==> !steps[k].Land? }

  lemma {:induction false} NoLandsIsTimely(s: State, steps: seq<Step>)
    requires NoLands(steps)
    ensures AllTimely(s, steps)
    decreases |steps|
  {
    if steps != [] { NoLandsIsTimely(Apply(s, steps[0]), steps[1..]); }
  }

  lemma RunOne(s: State, step: Step, rest: seq<Step>)
    ensures Run(s, [step] + rest) == Run(Apply(s, step), rest)
  {
    assert ([step] + rest)[1..] == rest;
  }

  /** The steps of one request that finds its ranking in the cache. */
  function CacheHit(i: nat, slot: Slot): seq<Step> {
    [Start(i)] + ([Act(i, GetGeneration(false))] + ([Act(i, GetRanking(slot, false))] + ([Act(i, Serve)] + [])))
  }

  lemma CacheHitServes(s: State, t: Token, slot: Slot, i: nat)
    requires s.generation == IsToken(t) && (t, slot) in s.rankings && i !in s.requests
    ensures var end := Run(s, CacheHit(i, slot));
            i in end.requests && end.requests[i] == Request(s.lastBump, Served(s.rankings[(t, slot)]))
  {
    var s1 := Apply(s, Start(i));
    var s2 := Apply(s1, Act(i, GetGeneration(false)));
    var s3 := Apply(s2, Act(i, GetRanking(slot, false)));
    RunOne(s, Start(i), [Act(i, GetGeneration(false))] + ([Act(i, GetRanking(slot, false))] + ([Act(i, Serve)] + [])));
    RunOne(s1, Act(i, GetGeneration(false)), [Act(i, GetRanking(slot, false))] + ([Act(i, Serve)] + []));
    RunOne(s2, Act(i, GetRanking(slot, false)), [Act(i, Serve)] + []);
    RunOne(s3, Act(i, Serve), []);
    assert s3.requests[i] == Request(s.lastBump, Loaded(t, s.rankings[(t, slot)]));
  }

  lemma ServeCached(s: State, t: Token, slot: Slot) returns (steps: seq<Step>)
    requires s.generation == IsToken(t) && (t, slot) in s.rankings && s.rankings[(t, slot)].readAt < s.lastBump
    ensures NoLands(steps) && ServedStale(s, Run(s, steps))
  {
    var i := FreshId(s.requests);
    steps := CacheHit(i, slot);
    CacheHitServes(s, t, slot, i);
    assert StaleAnswer(Run(s, steps).requests[i]);
  }

  lemma ServeIssued(s: State, w: RankingWrite) returns (steps: seq<Step>)
    requires s.generation == IsToken(w.token) && w in s.rankingWrites && w.ranking.readAt < s.lastBump
    ensures NoLands(steps) && ServedStale(s, Run(s, steps))
  {
    var s1 := Apply(s, LandRanking(w));
    var rest := ServeCached(s1, w.token, w.slot);
    steps := [LandRanking(w)] + rest;
    RunOne(s, LandRanking(w), rest);
    assert s1.requests == s.requests;
  }

  lemma ServeSource(s: State, t: Token, r: Ranking) returns (steps: seq<Step>)
    requires s.generation == IsToken(t) && Source(s, t, r) && r.readAt < s.lastBump
    ensures AllTimely(s, steps) && ServedStale(s, Run(s, steps))
  {
    if k :| k in s.rankings && k.0 == t && s.rankings[k] == r {
      steps := ServeCached(s, t, k.1);
    } else if w :| w in s.rankingWrites && w.token == t && w.ranking == r {
      steps := ServeIssued(s, w);
    } else {
      var j :| j in s.requests && HasComputed(s.requests[j].phase, t, r);
      var step := Act(j, SetRanking);
      var s1 := Apply(s, step);
      var rest := ServeIssued(s1, RankingWrite(t, s.requests[j].phase.slot, r));
      steps := [step] + rest;
      RunOne(s, step, rest);
      assert s1.requests.Keys == s.requests.Keys;
    }
    NoLandsIsTimely(s, steps);
  }

  // ----- Writes that take effect in time -----

  /** Every write takes effect at most once, and not after its own request went on without it. */
  ghost predicate AllPrompt(s: State, steps: seq<Step>)
    decreases |steps|
  {
    steps == [] || ((steps[0].Land? ==> steps[0].token !in s.used) && AllPrompt(Apply(s, steps[0]), steps[1..]))
  }

  /** Prompt writes are never late, so without delayed and repeated writes the promise is unconditional. */
  lemma {:induction false} PromptRunsAreTimely(s: State, steps: seq<Step>)
    requires Base(s) && AllPrompt(s, steps)
    ensures AllTimely(s, steps)
    decreases |steps|
  {
    if steps != [] {
      if steps[0].Land? && Lands(s, steps[0].token) {
        UnusedIsClean(s, steps[0].token, BumpAfter(s, steps[0].token));
      }
      StepKeepsBase(s, steps[0]);
      PromptRunsAreTimely(Apply(s, steps[0]), steps[1..]);
    }
  }

  // ----- How a token is settled -----

  /** The token under which a request looks rankings up. */
  function LookupToken(p: Phase): Option<Token> {
    match p
    case HasToken(t) => Some(t)
    case Reading(t, _) => Some(t)
    case Computed(t, _, _) => Some(t)
    case Loaded(t, _) => Some(t)
    case _ => None
  }

  /**
   * A step without a fault: reads succeed, the answer to a claim tells whether the
   * claim took effect, and nobody invalidates, loses or corrupts the generation.
   */
  predicate Calm(s: State, step: Step) {
    match step
    case Start(_) => true
    case Act(i, GetGeneration(failed)) => !failed
    case Act(i, RereadGeneration(failed)) => !failed
    case Act(i, ClaimAnswered(taken)) =>
      i in s.requests && s.requests[i].phase.Claiming? ==>
        if taken then s.generation.IsToken? else s.requests[i].phase.candidate in s.used
    case Act(_, _) => true
    case Land(_) => true
    case LandRanking(_) => true
    case LoseRanking(_, _) => true
    case _ => false
  }

  predicate AllCalm(s: State, steps: seq<Step>)
    decreases |steps|
  {
    steps == [] || (Calm(s, steps[0]) && AllCalm(Apply(s, steps[0]), steps[1..]))
  }

  predicate Agrees(s: State, p: Phase) {
    match p
    case Replacing(_) => false
    case Rereading => s.generation.IsToken?
    case _ => LookupToken(p).Some? ==> s.generation == IsToken(LookupToken(p).value)
  }

  /** Only claims are under way, and whatever took effect or is in use is the stored token. */
  predicate Settled(s: State) {
    && !s.generation.Corrupt?
    && (forall t :: t in s.genWrites ==> s.genWrites[t].onlyIfMissing)
    && (forall t :: t in s.used ==> s.generation == IsToken(t))
    && (forall i :: i in s.requests ==> Agrees(s, s.requests[i].phase))
  }

  lemma CalmActionSettles(s: State, i: nat, action: Action)
    requires Settled(s) && i in s.requests && Calm(s, Act(i, action))
    ensures var s' := DoAction(s, i, action);
            && s'.generation == s.generation && (forall t :: t in s'.used ==> s.generation == IsToken(t))
            && (forall t :: t in s'.genWrites ==> s'.genWrites[t].onlyIfMissing)
            && i in s'.requests && Agrees(s, s'.requests[i].phase)
  {
    assert Agrees(s, s.requests[i].phase);
  }

  lemma CalmStepSettles(s: State, step: Step)
    requires Settled(s) && Calm(s, step)
    ensures Settled(Apply(s, step))
  {
    var s' := Apply(s, step);
    if step.Act? && step.id in s.requests {
      CalmActionSettles(s, step.id, step.action);
      ActionFrame(s, step.id, step.action);
      forall i | i in s'.requests ensures Agrees(s', s'.requests[i].phase) {
        if i != step.id { assert Agrees(s, s.requests[i].phase); }
      }
    } else {
      forall i | i in s'.requests ensures Agrees(s', s'.requests[i].phase) {
        if i in s.requests { assert Agrees(s, s.requests[i].phase); }
      }
    }
  }

  lemma {:induction false} CalmRunSettles(s: State, steps: seq<Step>)
    requires Settled(s) && AllCalm(s, steps)
    ensures Settled(Run(s, steps))
    decreases |steps|
  {
    if steps != [] {
      CalmStepSettles(s, steps[0]);
      CalmRunSettles(Apply(s, steps[0]), steps[1..]);
    }
  }

  /**
   * However many requests race for a viewer without a stored generation, without
   * faults they all end up with one token, the stored one, so that each finds what
   * the others cached.
   */
  lemma RacingRequestsAgree(s: State, steps: seq<Step>, i: nat, j: nat)
    requires Initial(s) && s.generation.Missing? && AllCalm(s, steps)
    requires var r := Run(s, steps);
             i in r.requests && j in r.requests && LookupToken(r.requests[i].phase).Some? && LookupToken(r.requests[j].phase).Some?
    ensures var r := Run(s, steps);
            && LookupToken(r.requests[i].phase) == LookupToken(r.requests[j].phase)
            && r.generation == IsToken(LookupToken(r.requests[i].phase).value)
  {
    CalmRunSettles(s, steps);
    var r := Run(s, steps);
    assert Agrees(r, r.requests[i].phase) && Agrees(r, r.requests[j].phase);
  }

  /** An invalidation that reaches Redis replaces whatever is stored by a token that nothing was cached under. */
  lemma BumpTakesEffect(s: State)
    requires Base(s)
    ensures var t := s.nextToken;
            var bumped := Apply(Apply(s, IssueBump), Land(t));
            && bumped.generation == IsToken(t) && Succeeded(bumped, t) && t !in s.used
            && (forall k :: k in bumped.rankings ==> k.0 != t)
  {
    forall r ensures !Source(s, s.nextToken, r) { NoSourceOfUnused(s, s.nextToken, r); }
    assert forall k :: k in s.rankings ==> Source(s, k.0, s.rankings[k]);
  }

  lemma NoSourceOfUnused(s: State, t: Token, r: Ranking)
    requires Base(s) && t !in s.used
    ensures !Source(s, t, r)
  {
    UnusedIsClean(s, t, r.readAt + 1);
  }

  /** One request on its own: it keeps a stored token, claims a missing one, and replaces a corrupt one at once. */
  lemma RequestSettlesToken(s: State, i: nat)
    requires i in s.requests && s.requests[i].phase.Begin? && s.nextToken !in s.used
    ensures var c := s.nextToken;
            match s.generation
            case IsToken(t) =>
              var s1 := Apply(s, Act(i, GetGeneration(false)));
              s1.generation == IsToken(t) && s1.requests[i].phase == HasToken(t) && s1.genWrites == s.genWrites
            case Missing =>
              var s3 := Apply(Apply(Apply(s, Act(i, GetGeneration(false))), Land(c)), Act(i, ClaimAnswered(false)));
              s3.generation == IsToken(c) && i in s3.requests && s3.requests[i].phase == HasToken(c)
            case Corrupt =>
              var s3 := Apply(Apply(Apply(s, Act(i, GetGeneration(false))), Land(c)), Act(i, ReplaceAnswered));
              s3.generation == IsToken(c) && i in s3.requests && s3.requests[i].phase == HasToken(c)
  {
    var s1 := Apply(s, Act(i, GetGeneration(false)));
    if !s.generation.IsToken? {
      var s2 := Apply(s1, Land(s.nextToken));
      assert s2.generation == IsToken(s.nextToken) && s2.requests == s1.requests;
    }
  }

  /** After an exhausted batch the request goes on under its token and serves what is cached for the next one. */
  lemma NextBatchUsesTheToken(s: State, i: nat, slot: Slot)
    requires i in s.requests && s.requests[i].phase.Loaded? && (s.requests[i].phase.token, slot) in s.rankings
    ensures var t := s.requests[i].phase.token;
            var s2 := Apply(Apply(s, Act(i, ContinueBatch)), Act(i, GetRanking(slot, false)));
            i in s2.requests && s2.requests[i].phase == Loaded(t, s.rankings[(t, slot)])
  {
    var s1 := Apply(s, Act(i, ContinueBatch));
    assert s1.requests[i].phase == HasToken(s.requests[i].phase.token);
  }

  // ----- A run that breaks the promise -----

  const EMPTY: State := State(Missing, map[], map[], {}, map[], 0, 0, 0, 0, {})

  /** The first bump takes effect but its answer is lost; request 0 caches a ranking under its token. */
  const FIRST_BUMP: seq<Step> := [IssueBump, Land(0)]
  const MISS: seq<Step> := [Start(0), Act(0, GetGeneration(false)), Act(0, GetRanking(0, false))]
  const FILL: seq<Step> := [Act(0, ReadDatabase), Act(0, SetRanking)]
  const OLD: RankingWrite := RankingWrite(0, 0, Ranking(5))
  /** The second bump takes effect and succeeds; then the first write is sent again after a reconnect. */
  const SECOND_BUMP: seq<Step> := [LandRanking(OLD), IssueBump, Land(1), AcknowledgeBump(1)]

  lemma AfterFirstBump()
    ensures Run(EMPTY, FIRST_BUMP) == EMPTY.(generation := IsToken(0), genWrites := map[0 := GenWrite(false, Some(0))],
                                             nextToken := 1, clock := 2, used := {0})
  {
    var s1 := Apply(EMPTY, IssueBump);
    assert FIRST_BUMP == [IssueBump] + ([Land(0)] + []);
    RunOne(EMPTY, IssueBump, [Land(0)] + []);
    RunOne(s1, Land(0), []);
  }

  lemma AfterMiss()
    ensures Run(EMPTY, FIRST_BUMP + MISS) ==
            Run(EMPTY, FIRST_BUMP).(requests := map[0 := Request(0, Reading(0, 0))], clock := 5)
  {
    var s0 := Run(EMPTY, FIRST_BUMP);
    AfterFirstBump();
    RunConcat(EMPTY, FIRST_BUMP, MISS);
    var s1 := Apply(s0, MISS[0]);
    var s2 := Apply(s1, MISS[1]);
    assert s2.requests[0].phase == HasToken(0);
    assert MISS == [MISS[0]] + ([MISS[1]] + ([MISS[2]] + []));
    RunOne(s0, MISS[0], [MISS[1]] + ([MISS[2]] + []));
    RunOne(s1, MISS[1], [MISS[2]] + []);
    RunOne(s2, MISS[2], []);
  }

  lemma AfterFill()
    ensures var s := Run(EMPTY, FIRST_BUMP + MISS + FILL);
            s == Run(EMPTY, FIRST_BUMP).(requests := s.requests, rankingWrites := {OLD}, clock := 7) && 1 !in s.requests
  {
    var s0 := Run(EMPTY, FIRST_BUMP + MISS);
    AfterFirstBump();
    AfterMiss();
    RunConcat(EMPTY, FIRST_BUMP + MISS, FILL);
    var s1 := Apply(s0, FILL[0]);
    assert s1.requests[0].phase == Computed(0, 0, Ranking(5));
    assert FILL == [FILL[0]] + ([FILL[1]] + []);
    RunOne(s0, FILL[0], [FILL[1]] + []);
    RunOne(s1, FILL[1], []);
  }

  lemma AfterSecondBump()
    ensures var s := Run(EMPTY, FIRST_BUMP + MISS + FILL + SECOND_BUMP);
            && s.generation == IsToken(1) && s.rankings == map[(0, 0) := Ranking(5)] && 1 !in s.requests
            && 0 in s.genWrites && s.genWrites[0] == GenWrite(false, Some(0))
            && s.lastBump == s.acknowledged == 8
  {
    var s0 := Run(EMPTY, FIRST_BUMP + MISS + FILL);
    AfterFirstBump();
    AfterFill();
    RunConcat(EMPTY, FIRST_BUMP + MISS + FILL, SECOND_BUMP);
    var s1 := Apply(s0, LandRanking(OLD));
    var s2 := Apply(s1, IssueBump);
    var s3 := Apply(s2, Land(1));
    assert s3.lastBump == 8 && s3.genWrites[1] == GenWrite(false, Some(8));
    assert SECOND_BUMP == [LandRanking(OLD)] + ([IssueBump] + ([Land(1)] + ([AcknowledgeBump(1)] + [])));
    RunOne(s0, LandRanking(OLD), [IssueBump] + ([Land(1)] + ([AcknowledgeBump(1)] + [])));
    RunOne(s1, IssueBump, [Land(1)] + ([AcknowledgeBump(1)] + []));
    RunOne(s2, Land(1), [AcknowledgeBump(1)] + []);
    RunOne(s3, AcknowledgeBump(1), []);
  }

  /**
   * The failing run: after the second bump succeeded, the first bump's write takes
   * effect again, and a request that starts only then serves the ranking whose
   * database reads began before the second bump.
   */
  lemma RepeatedWriteServesStale()
    ensures var bumped := Run(EMPTY, FIRST_BUMP + MISS + FILL + SECOND_BUMP);
            var end := Run(Apply(bumped, Land(0)), CacheHit(1, 0));
            && bumped.acknowledged == 8 && 1 !in bumped.requests && Late(bumped, 0)
            && 1 in end.requests && end.requests[1].phase == Served(Ranking(5))
  {
    AfterSecondBump();
    var bumped := Run(EMPTY, FIRST_BUMP + MISS + FILL + SECOND_BUMP);
    CacheHitServes(Apply(bumped, Land(0)), 0, 0, 1);
    assert Source(bumped, 0, Ranking(5)) by { assert (0, 0) in bumped.rankings; }
  }
}
