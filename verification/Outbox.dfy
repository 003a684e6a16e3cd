/**
 * The transactional outbox as a state machine. Relays claim rows with a lease,
 * publish them to a queue that may lose everything, and consumers check, apply
 * an effect and acknowledge. Times are whatever the database clock said when
 * the statement ran; nothing here needs them to be monotone.
 */
module OutboxProtocol {
  import opened Common

  /** `dedupe_key`, used verbatim as the job id. */
  datatype Key = Key(id: string)

  datatype Row = Row(
    payload: string, availableAt: int, publishedAt: Option<int>, publishAttempts: nat,
    completedAt: Option<int>, failedAt: Option<int>, attempts: nat, maxAttempts: nat)

  /** A consumer run of one job: what it read, then what it has done. */
  datatype Consumer = Idle | HasRead(alreadyCompleted: bool) | Handled(alreadyCompleted: bool)

  /** What happened to a row, for stating properties over whole runs. */
  datatype History = History(payload: string, enqueuedFor: int, claims: seq<int>, failures: seq<int>, refused: nat)

  /** Everything about one key: its row, its job in the queue, its consumer run and its effect count. */
  datatype Entry = Entry(row: Row, queued: bool, consumer: Consumer, effects: nat, history: History)

  type State = map<Key, Entry>

  datatype Step =
    | Enqueue(key: Key, payload: string, availableAt: Option<int>, maxAttempts: Option<int>, now: int)
    | Claim(keys: set<Key>, now: int)
    | Publish(key: Key)
    | RecordFailure(key: Key, publishAttempts: nat, now: int)
    | LoseQueue
    | Consume(key: Key)
    | Handle(key: Key)
    | Acknowledge(key: Key, now: int)

  // ----- The SQL statements on one row -----

  predicate Claimable(row: Row, now: int, lease: nat) {
    && row.completedAt.None? && row.failedAt.None?
    && row.availableAt <= now
    && (row.publishedAt.None? || row.publishedAt.value < now - lease)
  }

  function ClaimRow(row: Row, now: int): Row {
    if row.attempts + 1 > row.maxAttempts then row.(attempts := row.attempts + 1, failedAt := Some(now))
    else
      row.(attempts := row.attempts + 1, publishAttempts := row.publishAttempts + 1, publishedAt := Some(now))
  }

  const MAX_TIMER_MS: int := 2_147_483_647

  function RetryDelayMs(lease: nat, publishAttempts: int): (delay: int)
    ensures 0 <= delay <= MAX_TIMER_MS
  {
    var exponent := Min(Max(publishAttempts - 1, 0), 5);
    Min(lease * Pow2(exponent), MAX_TIMER_MS)
  }

  function DelayRow(row: Row, now: int, delay: int): Row {
    if row.completedAt.None? && row.failedAt.None? then row.(availableAt := Max(row.availableAt, now + delay)) else row
  }

  /** The acknowledgement breaks a table constraint when the row is dead-lettered or was never published. */
  predicate AckRefused(row: Row) {
    row.completedAt.None? && (row.failedAt.Some? || row.publishedAt.None?)
  }

  /** Job ids that BullMQ accepts: not empty, not a bare integer, no colon. */
  predicate CompatibleJobId(k: Key) {
    k.id != [] && ':' !in k.id && !BareInteger(k.id)
  }

  predicate AllDigits(text: string) { forall i :: 0 <= i < |text| ==> '0' <= text[i] <= '9' }

  predicate BareInteger(text: string) {
    var digits := if text != [] && text[0] == '-' then text[1..] else text;
    digits != [] && AllDigits(digits)
  }

  /** Exactly which ids are unusable: the empty one, one with a colon, and a row of digits with or without a minus. */
  lemma UnusableIds(k: Key)
    ensures !CompatibleJobId(k) <==>
      || k.id == ""
      || (exists i :: 0 <= i < |k.id| && k.id[i] == ':')
      || (forall i :: 0 <= i < |k.id| ==> '0' <= k.id[i] <= '9')
      || (|k.id| >= 2 && k.id[0] == '-' && forall i :: 1 <= i < |k.id| ==> '0' <= k.id[i] <= '9')
  {
    if k.id != "" && k.id[0] == '-' {
      assert forall i :: 1 <= i < |k.id| ==> k.id[i] == k.id[1..][i - 1];
      assert forall i :: 0 <= i < |k.id| - 1 ==> k.id[1..][i] == k.id[i + 1];
    }
  }

  // ----- Steps on one entry -----

  function NewEntry(payload: string, availableAt: int, maxAttempts: nat): Entry {
    Entry(Row(payload, availableAt, None, 0, None, None, 0, maxAttempts), false, Idle, 0,
          History(payload, availableAt, [], [], 0))
  }

  function ClaimEntry(e: Entry, now: int): Entry {
    e.(row := ClaimRow(e.row, now), history := e.history.(claims := e.history.claims + [now]))
  }

  function PublishEntry(e: Entry): Entry {
    if e.row.publishedAt.Some? then e.(queued := true) else e
  }

  function FailEntry(e: Entry, publishAttempts: nat, now: int, lease: nat): Entry {
    e.(row := DelayRow(e.row, now, RetryDelayMs(lease, publishAttempts)),
       history := e.history.(failures := e.history.failures + [now]))
  }

  /** A job in the queue starts, unless a run of the same job is still going. */
  function ConsumeEntry(e: Entry): Entry {
    if e.queued && e.consumer.Idle? then e.(consumer := HasRead(e.row.completedAt.Some?)) else e
  }

  function HandleEntry(e: Entry): Entry {
    match e.consumer
    case HasRead(true) => e.(consumer := Handled(true))
    case HasRead(false) => e.(consumer := Handled(false), effects := e.effects + 1)
    case _ => e
  }

  function AcknowledgeEntry(e: Entry, now: int): Entry {
    if !e.consumer.Handled? then e
    else if AckRefused(e.row) then e.(consumer := Idle, history := e.history.(refused := e.history.refused + 1))
    else if e.row.completedAt.None? then e.(consumer := Idle, row := e.row.(completedAt := Some(now)))
    else e.(consumer := Idle)
  }

  // ----- Steps -----

  function EnqueueStep(s: State, k: Key, payload: string, at: Option<int>, max: Option<int>, now: int): State {
    var limit := if max.Some? then max.value else 10;
    if !CompatibleJobId(k) || limit <= 0 || k in s then s
    else s[k := NewEntry(payload, if at.Some? then at.value else now, limit)]
  }

  /** One claim statement: it marks those of `keys` that satisfy the predicate. */
  function ClaimStep(s: State, keys: set<Key>, now: int, lease: nat): State {
    map k | k in s :: if k in keys && Claimable(s[k].row, now, lease) then ClaimEntry(s[k], now) else s[k]
  }

  function Apply(lease: nat, s: State, step: Step): State {
    match step
    case Enqueue(k, payload, at, max, now) => EnqueueStep(s, k, payload, at, max, now)
    case Claim(keys, now) => ClaimStep(s, keys, now, lease)
    case Publish(k) => if k in s then s[k := PublishEntry(s[k])] else s
    case RecordFailure(k, n, now) => if k in s then s[k := FailEntry(s[k], n, now, lease)] else s
    case LoseQueue => map k | k in s :: s[k].(queued := false)
    case Consume(k) => if k in s then s[k := ConsumeEntry(s[k])] else s
    case Handle(k) => if k in s then s[k := HandleEntry(s[k])] else s
    case Acknowledge(k, now) => if k in s then s[k := AcknowledgeEntry(s[k], now)] else s
  }

  function Run(lease: nat, s: State, steps: seq<Step>): State
    decreases |steps|
  {
    if steps == [] then s else Run(lease, Apply(lease, s, steps[0]), steps[1..])
  }

  // ----- Invariant -----

  /** The longest backoff after a failed publish. */
  function MaxDelay(lease: nat): int { RetryDelayMs(lease, 6) }

  predicate RowInv(row: Row) {
    && row.maxAttempts > 0
    && row.publishAttempts == Min(row.attempts, row.maxAttempts)
    && (row.failedAt.Some? <==> row.attempts > row.maxAttempts)
    && row.attempts <= row.maxAttempts + 1
    && (row.publishedAt.Some? <==> row.attempts > 0)
    && (row.completedAt.Some? ==> row.failedAt.None? && row.publishedAt.Some?)
  }

  predicate Spaced(claims: seq<int>, lease: nat) {
    forall i, j :: 0 <= i < j < |claims| ==> claims[i] + lease < claims[j]
  }

  predicate ClaimInv(row: Row, h: History, lease: nat) {
    && row.payload == h.payload
    && |h.claims| == row.attempts
    && Spaced(h.claims, lease)
    && (row.failedAt.None? && h.claims != [] ==> row.publishedAt == Some(h.claims[|h.claims| - 1]))
    && row.availableAt >= h.enqueuedFor
    && (forall i :: 0 <= i < |h.claims| ==> h.claims[i] >= h.enqueuedFor)
  }

  ghost predicate BackoffInv(row: Row, h: History, lease: nat) {
    row.availableAt <= h.enqueuedFor || exists i :: 0 <= i < |h.failures| && row.availableAt <= h.failures[i] + MaxDelay(lease)
  }

  /** Effects: one when completed, one per refused acknowledgement, one while a run awaits its own. */
  predicate EffectInv(e: Entry) {
    && e.effects == (if e.row.completedAt.Some? then 1 else 0) + e.history.refused
                    + (if e.consumer == Handled(false) then 1 else 0)
    && (e.history.refused > 0 ==> e.row.failedAt.Some?)
    && (!e.consumer.Idle? ==> (e.consumer.alreadyCompleted <==> e.row.completedAt.Some?))
    && (e.queued || !e.consumer.Idle? ==> e.row.publishedAt.Some?)
  }

  ghost predicate EntryInv(e: Entry, lease: nat) {
    RowInv(e.row) && ClaimInv(e.row, e.history, lease) && BackoffInv(e.row, e.history, lease) && EffectInv(e)
  }

  ghost predicate Inv(s: State, lease: nat) {
    forall k :: k in s ==> EntryInv(s[k], lease)
  }

  // ----- Backoff -----

  lemma {:induction false} Pow2Monotone(a: nat, b: nat)
    requires a <= b
    ensures Pow2(a) <= Pow2(b)
    decreases b
  {
    if a < b { Pow2Monotone(a, b - 1); }
  }

  lemma ScaleMonotone(lease: nat, a: nat, b: nat)
    requires a <= b
    ensures lease * a <= lease * b
  {
  }

  lemma DelayMonotone(lease: nat, m: int, n: int)
    requires m <= n
    ensures RetryDelayMs(lease, m) <= RetryDelayMs(lease, n)
  {
    var e, f := Min(Max(m - 1, 0), 5), Min(Max(n - 1, 0), 5);
    Pow2Monotone(e, f);
    ScaleMonotone(lease, Pow2(e), Pow2(f));
  }

  lemma DelayBounded(lease: nat, n: nat)
    ensures RetryDelayMs(lease, n) <= MaxDelay(lease)
  {
    if n <= 6 { DelayMonotone(lease, n, 6); }
  }

  /** Backoff starts at one lease, never shrinks with the attempts, and is capped at 32 leases and at the timer maximum. */
  lemma RetryDelayValue(lease: nat, n: nat)
    ensures MaxDelay(lease) == Min(32 * lease, MAX_TIMER_MS)
    ensures RetryDelayMs(lease, 1) == Min(lease, MAX_TIMER_MS)
    ensures RetryDelayMs(lease, n) <= RetryDelayMs(lease, n + 1) <= MaxDelay(lease)
  {
    DelayBounded(lease, n + 1);
    DelayMonotone(lease, n, n + 1);
    assert Pow2(1) == 2 && Pow2(2) == 4 && Pow2(3) == 8 && Pow2(4) == 16 && Pow2(5) == 32;
  }

  // ----- Preservation -----

  lemma ClaimKeepsEntry(e: Entry, now: int, lease: nat)
    requires EntryInv(e, lease) && Claimable(e.row, now, lease)
    ensures EntryInv(ClaimEntry(e, now), lease)
  {
    var h, h' := e.history, ClaimEntry(e, now).history;
    forall i | 0 <= i < |h.claims| ensures h'.claims[i] + lease < now {
      assert h.claims[i] <= h.claims[|h.claims| - 1];
    }
    assert BackoffInv(e.row, h, lease) ==> BackoffInv(ClaimRow(e.row, now), h', lease);
  }

  lemma FailKeepsEntry(e: Entry, n: nat, now: int, lease: nat)
    requires EntryInv(e, lease)
    ensures EntryInv(FailEntry(e, n, now, lease), lease)
  {
    var h, h' := e.history, FailEntry(e, n, now, lease).history;
    var row' := FailEntry(e, n, now, lease).row;
    DelayBounded(lease, n);
    assert h'.failures[|h.failures|] == now;
    if row'.availableAt == e.row.availableAt && row'.availableAt > h.enqueuedFor {
      var i :| 0 <= i < |h.failures| && e.row.availableAt <= h.failures[i] + MaxDelay(lease);
      assert h'.failures[i] == h.failures[i];
    }
    assert BackoffInv(row', h', lease);
  }

  lemma AcknowledgeKeepsEntry(e: Entry, now: int, lease: nat)
    requires EntryInv(e, lease)
    ensures EntryInv(AcknowledgeEntry(e, now), lease)
  {
    assert BackoffInv(e.row, e.history, lease) ==>
      BackoffInv(AcknowledgeEntry(e, now).row, AcknowledgeEntry(e, now).history, lease);
  }

  lemma ConsumerKeepsEntry(e: Entry, lease: nat)
    requires EntryInv(e, lease)
    ensures EntryInv(PublishEntry(e), lease) && EntryInv(ConsumeEntry(e), lease) && EntryInv(HandleEntry(e), lease)
    ensures EntryInv(e.(queued := false), lease)
  {
  }

  lemma NewEntryInv(payload: string, availableAt: int, maxAttempts: nat, lease: nat)
    requires maxAttempts > 0
    ensures EntryInv(NewEntry(payload, availableAt, maxAttempts), lease)
  {
  }

  lemma UpdateKeepsInv(lease: nat, s: State, k: Key, e: Entry)
    requires Inv(s, lease) && EntryInv(e, lease)
    ensures Inv(s[k := e], lease)
  {
  }

  /** A consumer run reads and then applies its effect at most once. */
  lemma StartKeepsInv(lease: nat, s: State, k: Key)
    requires Inv(s, lease) && k in s && s[k].queued && s[k].consumer.Idle?
    ensures Inv(s[k := HandleEntry(ConsumeEntry(s[k]))], lease)
    ensures var e := HandleEntry(ConsumeEntry(s[k]));
            e == s[k].(consumer := Handled(s[k].row.completedAt.Some?),
                       effects := s[k].effects + (if s[k].row.completedAt.Some? then 0 else 1))
  {
    ConsumerKeepsEntry(s[k], lease);
    ConsumerKeepsEntry(ConsumeEntry(s[k]), lease);
    UpdateKeepsInv(lease, s, k, HandleEntry(ConsumeEntry(s[k])));
  }

  lemma StepKeepsEntry(lease: nat, s: State, step: Step, k: Key)
    requires Inv(s, lease) && k in s
    ensures k in Apply(lease, s, step) && EntryInv(Apply(lease, s, step)[k], lease)
  {
    var e := s[k];
    match step
    case Enqueue(_, _, _, _, _) =>
    case Claim(keys, now) => if k in keys && Claimable(e.row, now, lease) { ClaimKeepsEntry(e, now, lease); }
    case RecordFailure(_, n, now) => FailKeepsEntry(e, n, now, lease);
    case Acknowledge(_, now) => AcknowledgeKeepsEntry(e, now, lease);
    case _ => ConsumerKeepsEntry(e, lease);
  }

  lemma StepKeepsInv(lease: nat, s: State, step: Step)
    requires Inv(s, lease)
    ensures Inv(Apply(lease, s, step), lease)
  {
    forall k | k in Apply(lease, s, step) ensures EntryInv(Apply(lease, s, step)[k], lease) {
      if k in s {
        StepKeepsEntry(lease, s, step, k);
      } else {
        NewEntryInv(step.payload, Apply(lease, s, step)[k].row.availableAt, Apply(lease, s, step)[k].row.maxAttempts, lease);
      }
    }
  }

  lemma {:induction false} RunKeepsInv(lease: nat, s: State, steps: seq<Step>)
    requires Inv(s, lease)
    ensures Inv(Run(lease, s, steps), lease)
    decreases |steps|
  {
    if steps != [] {
      StepKeepsInv(lease, s, steps[0]);
      RunKeepsInv(lease, Apply(lease, s, steps[0]), steps[1..]);
    }
  }

  // ----- Main results -----

  /** Attempts, publish attempts and dead-lettering agree in every reachable state. */
  lemma AttemptsAddUp(lease: nat, steps: seq<Step>, k: Key)
    requires k in Run(lease, map[], steps)
    ensures var row := Run(lease, map[], steps)[k].row;
            && row.publishAttempts == Min(row.attempts, row.maxAttempts)
            && (row.failedAt.Some? <==> row.attempts > row.maxAttempts)
            && (row.completedAt.None? || row.failedAt.None?)
  {
    RunKeepsInv(lease, map[], steps);
  }

  /** Any two claims of one row, by whatever relays, are more than one lease apart. */
  lemma ClaimsAreSpaced(lease: nat, steps: seq<Step>, k: Key, i: nat, j: nat)
    requires k in Run(lease, map[], steps) && i < j < |Run(lease, map[], steps)[k].history.claims|
    ensures var claims := Run(lease, map[], steps)[k].history.claims; claims[j] - claims[i] > lease
    ensures Run(lease, map[], steps)[k].history.claims[i] >= Run(lease, map[], steps)[k].history.enqueuedFor
  {
    RunKeepsInv(lease, map[], steps);
  }

  /** An unfinished row can be claimed once its last lease and its longest possible backoff are over. */
  lemma UnfinishedIsClaimableAgain(lease: nat, steps: seq<Step>, k: Key, now: int)
    requires k in Run(lease, map[], steps)
    requires var e := Run(lease, map[], steps)[k];
             && e.row.completedAt.None? && e.row.failedAt.None?
             && e.history.enqueuedFor <= now
             && (forall i :: 0 <= i < |e.history.claims| ==> e.history.claims[i] + lease < now)
             && (forall i :: 0 <= i < |e.history.failures| ==> e.history.failures[i] + MaxDelay(lease) <= now)
    ensures var e, e' := Run(lease, map[], steps)[k], Apply(lease, Run(lease, map[], steps), Claim({k}, now))[k];
            Claimable(e.row, now, lease) && e'.row.attempts == e.row.attempts + 1 && e'.history.claims == e.history.claims + [now]
  {
    RunKeepsInv(lease, map[], steps);
    var e := Run(lease, map[], steps)[k];
    assert EntryInv(e, lease);
    assert e.history.claims != [] ==> e.history.claims[|e.history.claims| - 1] + lease < now;
  }

  /** A queue that loses everything loses no job for good: an unfinished row is published again by the next claim. */
  lemma LostJobIsPublishedAgain(lease: nat, steps: seq<Step>, k: Key, now: int)
    requires k in Run(lease, map[], steps)
    requires var row := Run(lease, map[], steps)[k].row; Claimable(row, now, lease) && row.attempts < row.maxAttempts
    ensures var s := Run(lease, map[], steps);
            var lost := Apply(lease, s, LoseQueue);
            var claimed := Apply(lease, lost, Claim({k}, now));
            && (forall j :: j in lost ==> !lost[j].queued)
            && k in claimed && k in Apply(lease, claimed, Publish(k)) && Apply(lease, claimed, Publish(k))[k].queued
  {
    var lost := Apply(lease, Run(lease, map[], steps), LoseQueue);
    assert lost[k].row == Run(lease, map[], steps)[k].row;
  }

  /** `step` claims the row of `k` in state `s`. */
  predicate Claims(lease: nat, s: State, step: Step, k: Key) {
    && step.Claim? && k in s && k in Apply(lease, s, step)
    && Apply(lease, s, step)[k].row.attempts != s[k].row.attempts
  }

  lemma StepNeverAdvancesRow(lease: nat, s: State, step: Step, k: Key)
    requires k in s
    ensures k in Apply(lease, s, step) && Apply(lease, s, step)[k].row.availableAt >= s[k].row.availableAt
  {
  }

  lemma {:induction false} RowsOnlyWait(lease: nat, s: State, steps: seq<Step>, k: Key)
    requires k in s
    ensures k in Run(lease, s, steps) && Run(lease, s, steps)[k].row.availableAt >= s[k].row.availableAt
    decreases |steps|
  {
    if steps != [] {
      StepNeverAdvancesRow(lease, s, steps[0], k);
      RowsOnlyWait(lease, Apply(lease, s, steps[0]), steps[1..], k);
    }
  }

  /**
   * A row is never claimed before its time: not before the moment it was enqueued
   * for, and after a failed publish not before that failure's own backoff is over,
   * whatever happens in between and however late the failure was recorded.
   */
  lemma ClaimsWaitTheirTurn(lease: nat, before: seq<Step>, first: Step, between: seq<Step>, claim: Step, k: Key)
    requires var s := Apply(lease, Run(lease, map[], before), first); Claims(lease, Run(lease, s, between), claim, k)
    ensures first.Enqueue? && k !in Run(lease, map[], before) && k in Apply(lease, Run(lease, map[], before), first) ==>
              claim.now >= if first.availableAt.Some? then first.availableAt.value else first.now
    ensures first.RecordFailure? && first.key == k && k in Run(lease, map[], before) ==>
              claim.now >= first.now + RetryDelayMs(lease, first.publishAttempts)
  {
    var s := Apply(lease, Run(lease, map[], before), first);
    RunKeepsInv(lease, map[], before);
    StepKeepsInv(lease, Run(lease, map[], before), first);
    if k in s {
      RowsOnlyWait(lease, s, between, k);
      RowsContinueFrom(lease, s, between, k);
      ClaimedAtItsTime(lease, Run(lease, s, between), claim, k);
    }
  }

  lemma ClaimedAtItsTime(lease: nat, s: State, claim: Step, k: Key)
    requires Claims(lease, s, claim, k)
    ensures s[k].row.availableAt <= claim.now && s[k].row.completedAt.None? && s[k].row.failedAt.None?
  {
  }

  /** What every step keeps of an existing row: a finished row does not change at all. */
  predicate RowContinues(before: Row, after: Row) {
    && after.payload == before.payload
    && after.maxAttempts == before.maxAttempts
    && before.attempts <= after.attempts
    && (before.completedAt.Some? || before.failedAt.Some? ==> after == before)
  }

  lemma StepContinuesRows(lease: nat, s: State, step: Step, k: Key)
    requires k in s && RowInv(s[k].row)
    ensures k in Apply(lease, s, step) && RowContinues(s[k].row, Apply(lease, s, step)[k].row)
  {
  }

  lemma {:induction false} RowsContinueFrom(lease: nat, s: State, steps: seq<Step>, k: Key)
    requires Inv(s, lease) && k in s
    ensures k in Run(lease, s, steps) && RowContinues(s[k].row, Run(lease, s, steps)[k].row)
    decreases |steps|
  {
    if steps != [] {
      assert EntryInv(s[k], lease);
      StepContinuesRows(lease, s, steps[0], k);
      StepKeepsInv(lease, s, steps[0]);
      RowsContinueFrom(lease, Apply(lease, s, steps[0]), steps[1..], k);
    }
  }

  /**
   * A key keeps its one row and its first payload; a completed or dead-lettered
   * row never changes again, so it is never claimed and its completion time stays.
   */
  lemma RowsContinue(lease: nat, before: seq<Step>, after: seq<Step>, k: Key)
    requires k in Run(lease, map[], before)
    ensures var s := Run(lease, map[], before);
            k in Run(lease, s, after) && RowContinues(s[k].row, Run(lease, s, after)[k].row)
  {
    RunKeepsInv(lease, map[], before);
    RowsContinueFrom(lease, Run(lease, map[], before), after, k);
  }

  /**
   * The effect count of a key: once when completed, never more than once unless
   * the row is dead-lettered, and otherwise once per acknowledgement that the
   * dead-lettered row refused, plus a run in progress.
   */
  lemma EffectCount(lease: nat, steps: seq<Step>, k: Key)
    requires k in Run(lease, map[], steps)
    ensures var e := Run(lease, map[], steps)[k];
            && (e.row.completedAt.Some? ==> e.effects == 1)
            && (e.row.failedAt.None? ==> e.effects <= 1)
            && (e.consumer.Idle? && e.row.completedAt.None? ==> e.effects == e.history.refused)
            && (e.consumer.Idle? ==> (e.effects > 1 <==> e.row.failedAt.Some? && e.history.refused > 1))
  {
    RunKeepsInv(lease, map[], steps);
    assert EntryInv(Run(lease, map[], steps)[k], lease);
  }

  /** The steps of one delivery of a job after the other, each acknowledged at its own time. */
  function Deliveries(k: Key, nows: seq<int>): seq<Step> {
    if nows == [] then [] else [Consume(k), Handle(k), Acknowledge(k, nows[0])] + Deliveries(k, nows[1..])
  }

  function DeliverEntry(e: Entry, now: int): Entry { AcknowledgeEntry(HandleEntry(ConsumeEntry(e)), now) }

  /** A delivered job stays in the queue for redelivery, and its row keeps its dead letter or completes. */
  lemma DeliverOnce(e: Entry, now: int, lease: nat)
    requires EntryInv(e, lease) && e.queued && e.consumer.Idle?
    ensures var f := DeliverEntry(e, now);
            && EntryInv(f, lease) && f.queued && f.consumer.Idle?
            && f.row.failedAt == e.row.failedAt
            && f.effects == (if e.row.failedAt.Some? then e.effects + 1 else 1)
            && (e.row.failedAt.None? ==> f.row.completedAt.Some?)
  {
    ConsumerKeepsEntry(e, lease);
    ConsumerKeepsEntry(ConsumeEntry(e), lease);
    AcknowledgeKeepsEntry(HandleEntry(ConsumeEntry(e)), now, lease);
    DeliveredFields(e, now);
  }

  lemma DeliveredFields(e: Entry, now: int)
    requires RowInv(e.row) && EffectInv(e) && e.queued && e.consumer.Idle?
    ensures var f := DeliverEntry(e, now);
            && f.queued && f.consumer.Idle? && f.row.failedAt == e.row.failedAt
            && f.effects == (if e.row.failedAt.Some? then e.effects + 1 else 1)
            && (e.row.failedAt.None? ==> f.row.completedAt.Some?)
  {
  }

  lemma RunDelivery(lease: nat, s: State, k: Key, now: int, rest: seq<Step>)
    requires k in s
    ensures Run(lease, s, [Consume(k), Handle(k), Acknowledge(k, now)] + rest)
         == Run(lease, s[k := DeliverEntry(s[k], now)], rest)
  {
    var r1 := [Handle(k), Acknowledge(k, now)] + rest;
    assert [Consume(k), Handle(k), Acknowledge(k, now)] + rest == [Consume(k)] + r1;
    RunOne(lease, s, Consume(k), r1);
    RunHandling(lease, s[k := ConsumeEntry(s[k])], k, now, rest);
    assert s[k := ConsumeEntry(s[k])][k := DeliverEntry(s[k], now)] == s[k := DeliverEntry(s[k], now)];
  }

  lemma RunHandling(lease: nat, s: State, k: Key, now: int, rest: seq<Step>)
    requires k in s
    ensures Run(lease, s, [Handle(k), Acknowledge(k, now)] + rest)
         == Run(lease, s[k := AcknowledgeEntry(HandleEntry(s[k]), now)], rest)
  {
    var s1, r1 := s[k := HandleEntry(s[k])], [Acknowledge(k, now)] + rest;
    assert [Handle(k), Acknowledge(k, now)] + rest == [Handle(k)] + r1;
    RunOne(lease, s, Handle(k), r1);
    RunOne(lease, s1, Acknowledge(k, now), rest);
    assert s1[k := AcknowledgeEntry(s1[k], now)] == s[k := AcknowledgeEntry(s1[k], now)];
  }

  lemma {:induction false} DeliveriesCount(lease: nat, s: State, k: Key, nows: seq<int>)
    requires k in s && EntryInv(s[k], lease) && s[k].queued && s[k].consumer.Idle? && nows != []
    ensures var t := Run(lease, s, Deliveries(k, nows));
            k in t && t[k].effects == (if s[k].row.failedAt.Some? then s[k].effects + |nows| else 1)
    decreases |nows|
  {
    RunDelivery(lease, s, k, nows[0], Deliveries(k, nows[1..]));
    DeliverOnce(s[k], nows[0], lease);
    if |nows| > 1 {
      DeliveriesCount(lease, s[k := DeliverEntry(s[k], nows[0])], k, nows[1..]);
    }
  }

  /**
   * When a redelivered job repeats its effect: in every reachable state, with the
   * job in the queue and no run of it in progress, two or more deliveries apply
   * the effect more than once exactly when `failed_at`, a column that the
   * consumer never reads, is set. Each delivery of a dead letter adds one effect;
   * any other row ends with exactly one, however often its job is delivered.
   */
  lemma RedeliveryRepeatsExactlyDeadLetters(lease: nat, steps: seq<Step>, k: Key, nows: seq<int>)
    requires var s := Run(lease, map[], steps); k in s && s[k].queued && s[k].consumer.Idle?
    requires |nows| >= 1
    ensures var s := Run(lease, map[], steps);
            var t := Run(lease, s, Deliveries(k, nows));
            && k in t
            && t[k].effects == (if s[k].row.failedAt.Some? then s[k].effects + |nows| else 1)
            && (|nows| >= 2 ==> (t[k].effects > 1 <==> s[k].row.failedAt.Some?))
  {
    RunKeepsInv(lease, map[], steps);
    assert EntryInv(Run(lease, map[], steps)[k], lease);
    DeliveriesCount(lease, Run(lease, map[], steps), k, nows);
  }

  /**
   * An instance, with one attempt allowed: published, not acknowledged in time,
   * dead-lettered by the next claim. The job still in the queue is then delivered
   * twice and its effect is applied twice: each acknowledgement is refused.
   */
  lemma DeadLetterRepeatsEffect()
    ensures exists steps ::
              && JOB in Run(10, map[], steps)
              && Run(10, map[], steps)[JOB].row.completedAt.None?
              && Run(10, map[], steps)[JOB].effects == 2
  {
    var twice := Deliveries(JOB, [30, 30]);
    ReachDead(twice);
    ReachDead([]);
    assert DEAD_START + [] == DEAD_START;
    assert Run(10, map[], DEAD_START) == DEAD;
    RedeliveryRepeatsExactlyDeadLetters(10, DEAD_START, JOB, [30, 30]);
    RowsContinue(10, DEAD_START, twice, JOB);
    assert Run(10, map[], DEAD_START + twice) == Run(10, DEAD, twice);
  }

  const JOB: Key := Key("a.b")
  const DEAD_START: seq<Step> := [Enqueue(JOB, "p", None, Some(1), 0), Claim({JOB}, 0), Publish(JOB), Claim({JOB}, 20)]

  /** Dead-lettered, never acknowledged, its job still in the queue. */
  const DEAD: State := map[JOB := Entry(Row("p", 0, Some(0), 1, None, Some(20), 2, 1), true, Idle, 0,
                                        History("p", 0, [0, 20], [], 0))]

  lemma RunOne(lease: nat, s: State, step: Step, rest: seq<Step>)
    ensures Run(lease, s, [step] + rest) == Run(lease, Apply(lease, s, step), rest)
  {
    assert ([step] + rest)[1..] == rest;
  }

  const FIRST: Entry := NewEntry("p", 0, 1)
  const PUBLISHED: Entry := PublishEntry(ClaimEntry(FIRST, 0))

  lemma EnqueueAndClaim(rest: seq<Step>)
    ensures Run(10, map[], [Enqueue(JOB, "p", None, Some(1), 0)] + ([Claim({JOB}, 0)] + rest))
         == Run(10, map[JOB := ClaimEntry(FIRST, 0)], rest)
  {
    assert JOB.id[0] == 'a' && JOB.id[1] == '.' && JOB.id[2] == 'b' && !AllDigits(JOB.id);
    RunOne(10, map[], Enqueue(JOB, "p", None, Some(1), 0), [Claim({JOB}, 0)] + rest);
    RunOne(10, map[JOB := FIRST], Claim({JOB}, 0), rest);
    assert ClaimStep(map[JOB := FIRST], {JOB}, 0, 10) == map[JOB := ClaimEntry(FIRST, 0)];
  }

  lemma PublishAndClaim(rest: seq<Step>)
    ensures Run(10, map[JOB := ClaimEntry(FIRST, 0)], [Publish(JOB)] + ([Claim({JOB}, 20)] + rest))
         == Run(10, DEAD, rest)
  {
    var e := ClaimEntry(FIRST, 0);
    assert [] + [0] == [0] && [0] + [20] == [0, 20];
    RunOne(10, map[JOB := e], Publish(JOB), [Claim({JOB}, 20)] + rest);
    assert map[JOB := e][JOB := PUBLISHED] == map[JOB := PUBLISHED];
    RunOne(10, map[JOB := PUBLISHED], Claim({JOB}, 20), rest);
    assert ClaimEntry(PUBLISHED, 20) == DEAD[JOB];
    assert ClaimStep(map[JOB := PUBLISHED], {JOB}, 20, 10) == DEAD;
  }

  lemma ReachDead(rest: seq<Step>)
    ensures Run(10, map[], DEAD_START + rest) == Run(10, DEAD, rest)
  {
    var r2 := [Publish(JOB)] + ([Claim({JOB}, 20)] + rest);
    EnqueueAndClaim(r2);
    PublishAndClaim(rest);
    assert DEAD_START + rest == [Enqueue(JOB, "p", None, Some(1), 0)] + ([Claim({JOB}, 0)] + r2);
  }
}

/**
 * Enqueuer, relay, acknowledger and echo consumer as they run: one object whose
 * methods update rows, queue and counters in place. The ghost `trace` is a state
 * of the protocol, and each method moves it by steps of the protocol.
 */
module OutboxStore {
  import opened Common
  import opened OutboxProtocol

  /** What happened when the relay handed a claimed row to the queue. */
  datatype Delivery = Published | Failed(recordedAt: Option<int>)

  datatype OutboxError = NoTransaction | BadJobId | ConstraintViolation

  class Outbox {
    const leaseMs: nat
    const batchSize: nat
    var rows: map<Key, Row>
    var queue: set<Key>
    var effects: map<Key, nat>
    ghost var trace: State

    ghost predicate Matches(k: Key)
      requires k in rows && k in trace
      reads this
    {
      && trace[k].row == rows[k]
      && (trace[k].queued <==> k in queue)
      && trace[k].effects == (if k in effects then effects[k] else 0)
    }

    /** Rows, queue and counters are those of the trace. */
    ghost predicate Coupled()
      reads this
    {
      && rows.Keys == trace.Keys
      && queue <= rows.Keys && effects.Keys <= rows.Keys
      && (forall k :: k in rows ==> Matches(k))
    }

    ghost predicate Valid()
      reads this
    {
      Coupled() && Inv(trace, leaseMs)
    }

    constructor (leaseMs: nat, batchSize: nat)
      ensures Valid() && trace == map[]
      ensures this.leaseMs == leaseMs && this.batchSize == batchSize
    {
      this.leaseMs, this.batchSize := leaseMs, batchSize;
      rows, queue, effects, trace := map[], {}, map[], map[];
    }

    /**
     * INSERT ... ON CONFLICT DO NOTHING inside the caller's transaction. An unusable
     * id is refused before the insert; the table checks the proposed row before it
     * looks for a conflict, so a limit below one fails for an existing key as well.
     */
    method Enqueue(inTransaction: bool, key: Key, payload: string, availableAt: Option<int>, maxAttempts: Option<int>, now: int)
      returns (inserted: Result<bool, OutboxError>)
      requires Valid()
      modifies this
      ensures Valid()
      ensures trace == if inTransaction then old(EnqueueStep(trace, key, payload, availableAt, maxAttempts, now)) else old(trace)
      ensures inserted == Err(NoTransaction) <==> !inTransaction
      ensures inserted == Err(BadJobId) <==> inTransaction && !CompatibleJobId(key)
      ensures inserted == Err(ConstraintViolation) <==>
        inTransaction && CompatibleJobId(key) && maxAttempts.Some? && maxAttempts.value <= 0
      ensures inserted == Ok(true) ==>
        && key !in old(rows)
        && rows == old(rows)[key := Row(payload, if availableAt.Some? then availableAt.value else now, None, 0, None, None, 0,
                                        if maxAttempts.Some? then maxAttempts.value else 10)]
      ensures inserted != Ok(true) ==> rows == old(rows)
      ensures inserted == Ok(false) ==> key in rows
    {
      if !inTransaction { return Err(NoTransaction); }
      if !CompatibleJobId(key) { return Err(BadJobId); }
      var limit := if maxAttempts.Some? then maxAttempts.value else 10;
      if limit <= 0 { return Err(ConstraintViolation); }
      if key in rows { return Ok(false); }
      var at := if availableAt.Some? then availableAt.value else now;
      NewEntryInv(payload, at, limit, leaseMs);
      rows := rows[key := Row(payload, at, None, 0, None, None, 0, limit)];
      trace := trace[key := NewEntry(payload, at, limit)];
      return Ok(true);
    }

    /** The atomic claim statement over the rows that the database selected for this relay. */
    method ClaimBatch(selected: seq<Key>, now: int) returns (claimed: seq<(Key, Row)>)
      requires Valid() && |selected| <= batchSize
      requires forall k :: k in selected ==> k in rows && Claimable(rows[k], now, leaseMs)
      modifies this
      ensures Valid() && trace == old(ClaimStep(trace, KeySet(selected), now, leaseMs))
      ensures claimed == Pairs(selected, rows)
    {
      StepKeepsInv(leaseMs, trace, Claim(KeySet(selected), now));
      claimed := MarkSelected(selected, now);
    }

    method MarkSelected(selected: seq<Key>, now: int) returns (claimed: seq<(Key, Row)>)
      requires Coupled()
      requires forall k :: k in selected ==> k in rows && Claimable(rows[k], now, leaseMs)
      modifies `rows, `trace
      ensures Coupled() && trace == old(ClaimStep(trace, KeySet(selected), now, leaseMs))
      ensures rows.Keys == old(rows.Keys) && claimed == Pairs(selected, rows)
    {
      ClaimStepAt(trace, selected, now, leaseMs);
      trace := ClaimStep(trace, KeySet(selected), now, leaseMs);
      rows := MarkClaimed(rows, selected, now);
      claimed := Pairs(selected, rows);
      assert forall k :: k in rows ==> Matches(k) by {
        forall k | k in rows ensures Matches(k) { assert old(Matches(k)); }
      }
    }

    /** Pushes the next attempt out by the backoff; a finished row is left alone. */
    method RecordPublishFailure(key: Key, publishAttempts: nat, now: int)
      requires Valid() && key in rows
      modifies this
      ensures Valid() && trace == old(trace[key := FailEntry(trace[key], publishAttempts, now, leaseMs)])
      ensures rows == old(rows)[key := old(rows[key]).(availableAt :=
        if rows[key].completedAt.None? && rows[key].failedAt.None?
        then Max(old(rows[key]).availableAt, now + RetryDelayMs(leaseMs, publishAttempts)) else old(rows[key]).availableAt)]
      ensures queue == old(queue)
    {
      FailKeepsEntry(trace[key], publishAttempts, now, leaseMs);
      UpdateKeepsInv(leaseMs, trace, key, FailEntry(trace[key], publishAttempts, now, leaseMs));
      DelayStored(key, RetryDelayMs(leaseMs, publishAttempts), now, FailEntry(trace[key], publishAttempts, now, leaseMs));
    }

    method DelayStored(key: Key, delay: nat, now: int, ghost failed: Entry)
      requires Coupled() && key in rows
      requires failed.row == DelayRow(rows[key], now, delay)
      requires failed == trace[key].(row := failed.row, history := failed.history)
      modifies `rows, `trace
      ensures Coupled() && trace == old(trace)[key := failed]
      ensures rows == old(rows)[key := old(DelayRow(rows[key], now, delay))]
    {
      assert Matches(key);
      rows := rows[key := DelayRow(rows[key], now, delay)];
      trace := trace[key := failed];
      assert forall k :: k in rows ==> Matches(k) by {
        forall k | k in rows ensures Matches(k) { assert old(Matches(k)); }
      }
    }

    /** `queue.add`: an existing job with the same id absorbs the new one. */
    method AddJob(key: Key)
      requires Valid() && key in rows && rows[key].publishedAt.Some?
      modifies this
      ensures Valid() && trace == old(trace[key := PublishEntry(trace[key])])
      ensures queue == old(queue) + {key}
    {
      ConsumerKeepsEntry(trace[key], leaseMs);
      UpdateKeepsInv(leaseMs, trace, key, PublishEntry(trace[key]));
      StoreJob(key);
    }

    method StoreJob(key: Key)
      requires Coupled() && key in rows && rows[key].publishedAt.Some?
      modifies `queue, `trace
      ensures Coupled() && trace == old(trace[key := PublishEntry(trace[key])])
      ensures queue == old(queue) + {key}
    {
      assert Matches(key);
      queue := queue + {key};
      trace := trace[key := PublishEntry(trace[key])];
      assert forall k :: k in rows ==> Matches(k) by {
        forall k | k in rows ensures Matches(k) { assert old(Matches(k)); }
      }
    }

    /**
     * One pass over the rows that the claim returned, each once. A row beyond its
     * limit is dead-lettered and nothing more; any other is marked as published, and
     * its job is put into the queue or, when the failure could be recorded, its next
     * attempt is pushed out. No other row and no other job changes.
     */
    method RunTick(selected: seq<Key>, now: int, deliveries: seq<Delivery>) returns (count: nat)
      requires Valid() && |selected| <= batchSize && |deliveries| == |selected|
      requires forall k :: k in selected ==> k in rows && Claimable(rows[k], now, leaseMs)
      requires forall i, j :: 0 <= i < j < |selected| ==> selected[i] != selected[j]
      modifies this
      ensures Valid() && count == |selected|
      ensures var claimed := old(ClaimStep(trace, KeySet(selected), now, leaseMs));
              KeySet(selected) <= claimed.Keys && trace == DeliverAll(claimed, claimed, selected, deliveries, leaseMs)
      ensures rows.Keys == old(rows.Keys) && forall k :: k in rows && k !in selected ==> rows[k] == old(rows)[k]
      ensures forall i :: 0 <= i < |selected| ==>
        rows[selected[i]] == RowAfterPass(old(rows)[selected[i]], now, deliveries[i], leaseMs)
      ensures forall k :: k in queue <==>
        || k in old(queue)
        || exists i :: 0 <= i < |selected| && selected[i] == k && Queues(old(rows)[k], deliveries[i])
    {
      count := Pass(selected, now, deliveries);
      PassOutcome(old(trace), selected, now, deliveries, leaseMs);
      forall k | k in rows ensures Matches(k) && old(Matches(k)) {}
    }

    method Pass(selected: seq<Key>, now: int, deliveries: seq<Delivery>) returns (count: nat)
      requires Valid() && |selected| <= batchSize && |deliveries| == |selected|
      requires forall k :: k in selected ==> k in rows && Claimable(rows[k], now, leaseMs)
      modifies this
      ensures Valid() && count == |selected|
      ensures var claimed := old(ClaimStep(trace, KeySet(selected), now, leaseMs));
              KeySet(selected) <= claimed.Keys && trace == DeliverAll(claimed, claimed, selected, deliveries, leaseMs)
    {
      var claimed := ClaimBatch(selected, now);
      ghost var start := trace;
      for i := 0 to |claimed|
        invariant Valid() && KeySet(selected) <= start.Keys
        invariant trace == DeliverAll(start, start, selected[..i], deliveries[..i], leaseMs)
      {
        var key, row := claimed[i].0, claimed[i].1;
        assert key in KeySet(selected);
        DeliverAllSnoc(start, selected, deliveries, i, leaseMs);
        DeliverAllKeeps(start, start, selected[..i], deliveries[..i], key, leaseMs);
        if row.failedAt.Some? {
          continue;
        }
        match deliveries[i]
        case Published =>
          assert EntryInv(start[key], leaseMs);
          AddJob(key);
        case Failed(recordedAt) =>
          if recordedAt.Some? {
            RecordPublishFailure(key, row.publishAttempts, recordedAt.value);
          }
      }
      assert selected[..|selected|] == selected && deliveries[..|selected|] == deliveries;
      count := |claimed|;
    }

    /** The guarded update; the table refuses it for a dead-lettered row. */
    method Acknowledge(key: Key, now: int) returns (acknowledged: Result<bool, OutboxError>)
      requires Valid() && key in rows && trace[key].consumer.Handled?
      modifies this
      ensures Valid() && trace == old(trace[key := AcknowledgeEntry(trace[key], now)])
      ensures acknowledged.Err? <==>
        old(rows[key].completedAt.None? && (rows[key].failedAt.Some? || rows[key].publishedAt.None?))
      ensures acknowledged == Ok(true) ==> rows == old(rows)[key := old(rows[key]).(completedAt := Some(now))]
      ensures acknowledged != Ok(true) ==> rows == old(rows)
      ensures acknowledged.Ok? ==> (acknowledged.value <==> old(rows[key].completedAt.None?))
      ensures effects == old(effects)
    {
      AcknowledgeKeepsEntry(trace[key], now, leaseMs);
      UpdateKeepsInv(leaseMs, trace, key, AcknowledgeEntry(trace[key], now));
      acknowledged := StoreCompletion(key, now);
    }

    method StoreCompletion(key: Key, now: int) returns (acknowledged: Result<bool, OutboxError>)
      requires Coupled() && key in rows && trace[key].consumer.Handled?
      modifies `rows, `trace
      ensures Coupled() && trace == old(trace[key := AcknowledgeEntry(trace[key], now)])
      ensures acknowledged.Err? <==> old(AckRefused(rows[key]))
      ensures acknowledged == Ok(true) ==> rows == old(rows)[key := old(rows[key]).(completedAt := Some(now))]
      ensures acknowledged != Ok(true) ==> rows == old(rows)
      ensures acknowledged.Ok? ==> (acknowledged.value <==> old(rows[key].completedAt.None?))
    {
      assert Matches(key);
      trace := trace[key := AcknowledgeEntry(trace[key], now)];
      if AckRefused(rows[key]) {
        acknowledged := Err(ConstraintViolation);
      } else if rows[key].completedAt.None? {
        rows := rows[key := rows[key].(completedAt := Some(now))];
        acknowledged := Ok(true);
      } else {
        acknowledged := Ok(false);
      }
      assert forall k :: k in rows ==> Matches(k) by {
        forall k | k in rows ensures Matches(k) { assert old(Matches(k)); }
      }
    }

    /** The first half of the echo consumer: read `completed_at` and apply the effect unless it is set. */
    method ApplyEffect(key: Key) returns (alreadyCompleted: bool)
      requires Valid() && key in rows && key in queue && trace[key].consumer.Idle?
      modifies `effects, `trace
      ensures Valid() && trace == old(trace[key := HandleEntry(ConsumeEntry(trace[key]))])
      ensures alreadyCompleted <==> rows[key].completedAt.Some?
      ensures effects == if alreadyCompleted then old(effects) else old(effects[key := trace[key].effects + 1])
    {
      assert Matches(key);
      StartKeepsInv(leaseMs, trace, key);
      alreadyCompleted := CountEffect(key, HandleEntry(ConsumeEntry(trace[key])));
    }

    method CountEffect(key: Key, ghost handled: Entry) returns (alreadyCompleted: bool)
      requires Coupled() && key in rows
      requires handled == trace[key].(consumer := Handled(rows[key].completedAt.Some?),
                                      effects := trace[key].effects + (if rows[key].completedAt.Some? then 0 else 1))
      modifies `effects, `trace
      ensures Coupled() && trace == old(trace)[key := handled]
      ensures alreadyCompleted <==> rows[key].completedAt.Some?
      ensures effects == if alreadyCompleted then old(effects) else old(effects[key := trace[key].effects + 1])
    {
      assert Matches(key);
      alreadyCompleted := rows[key].completedAt.Some?;
      if !alreadyCompleted {
        effects := effects[key := 1 + if key in effects then effects[key] else 0];
      }
      trace := trace[key := handled];
      assert forall k :: k in rows ==> Matches(k) by {
        forall k | k in rows ensures Matches(k) { assert old(Matches(k)); }
      }
    }

    /** The echo consumer: effect, then acknowledgement. */
    method Process(key: Key, now: int) returns (acknowledged: Result<bool, OutboxError>)
      requires Valid() && key in rows && key in queue && trace[key].consumer.Idle?
      modifies this
      ensures Valid() && key in rows
      ensures trace == old(trace[key := AcknowledgeEntry(HandleEntry(ConsumeEntry(trace[key])), now)])
      ensures acknowledged.Err? <==>
        old(rows[key].completedAt.None? && (rows[key].failedAt.Some? || rows[key].publishedAt.None?))
      ensures acknowledged == Ok(true) ==> rows == old(rows)[key := old(rows[key]).(completedAt := Some(now))]
      ensures acknowledged != Ok(true) ==> rows == old(rows)
      ensures acknowledged.Ok? ==> (acknowledged.value <==> old(rows[key].completedAt.None?))
      ensures effects == old(if rows[key].completedAt.Some? then effects else effects[key := trace[key].effects + 1])
    {
      ghost var before := trace;
      ghost var started := HandleEntry(ConsumeEntry(before[key]));
      assert Matches(key);
      StartedIsHandled(before[key]);
      var alreadyCompleted := ApplyEffect(key);
      assert trace[key] == started;
      acknowledged := Acknowledge(key, now);
      UpdateTwice(before, key, started, AcknowledgeEntry(started, now));
    }
  }

  lemma UpdateTwice(s: State, k: Key, e: Entry, f: Entry)
    ensures s[k := e][k := f] == s[k := f]
  {
  }

  lemma StartedIsHandled(e: Entry)
    requires e.queued && e.consumer.Idle?
    ensures HandleEntry(ConsumeEntry(e)).consumer.Handled? && HandleEntry(ConsumeEntry(e)).row == e.row
  {
  }

  function KeySet(keys: seq<Key>): set<Key> { set k | k in keys }

  /** The UPDATE ... FROM candidates of the claim. */
  function MarkClaimed(rows: map<Key, Row>, selected: seq<Key>, now: int): map<Key, Row> {
    map k | k in rows :: if k in selected then ClaimRow(rows[k], now) else rows[k]
  }

  lemma ClaimStepAt(s: State, selected: seq<Key>, now: int, lease: nat)
    ensures ClaimStep(s, KeySet(selected), now, lease).Keys == s.Keys
    ensures forall k :: k in s ==>
      ClaimStep(s, KeySet(selected), now, lease)[k]
        == if k in selected && Claimable(s[k].row, now, lease) then ClaimEntry(s[k], now) else s[k]
  {
  }

  function Pairs(keys: seq<Key>, rows: map<Key, Row>): (pairs: seq<(Key, Row)>)
    requires forall k :: k in keys ==> k in rows
    ensures |pairs| == |keys|
    ensures forall i :: 0 <= i < |keys| ==> pairs[i] == (keys[i], rows[keys[i]])
  {
    if keys == [] then [] else [(keys[0], rows[keys[0]])] + Pairs(keys[1..], rows)
  }

  /** What the pass does with one row, given the row as it was claimed. */
  function Deliver(s: State, claimed: Row, k: Key, delivery: Delivery, lease: nat): State
    requires k in s
  {
    if claimed.failedAt.Some? then s
    else
      match delivery
      case Published => s[k := PublishEntry(s[k])]
      case Failed(None) => s
      case Failed(Some(at)) => s[k := FailEntry(s[k], claimed.publishAttempts, at, lease)]
  }

  /** The pass after its claim `start`, row by row. */
  function DeliverAll(s: State, start: State, keys: seq<Key>, deliveries: seq<Delivery>, lease: nat): (r: State)
    requires |keys| == |deliveries| && KeySet(keys) <= s.Keys && KeySet(keys) <= start.Keys
    ensures r.Keys == s.Keys
  {
    if keys == [] then s
    else
      var n := |keys| - 1;
      assert KeySet(keys[..n]) <= KeySet(keys) && keys[n] in KeySet(keys);
      Deliver(DeliverAll(s, start, keys[..n], deliveries[..n], lease), start[keys[n]].row, keys[n], deliveries[n], lease)
  }

  lemma DeliverAllSnoc(start: State, keys: seq<Key>, deliveries: seq<Delivery>, i: nat, lease: nat)
    requires |keys| == |deliveries| && i < |keys| && KeySet(keys) <= start.Keys
    ensures KeySet(keys[..i]) <= start.Keys && KeySet(keys[..i + 1]) <= start.Keys && keys[i] in start
    ensures DeliverAll(start, start, keys[..i + 1], deliveries[..i + 1], lease)
         == Deliver(DeliverAll(start, start, keys[..i], deliveries[..i], lease), start[keys[i]].row, keys[i], deliveries[i], lease)
  {
    assert keys[i] in KeySet(keys);
    assert keys[..i + 1][..i] == keys[..i] && deliveries[..i + 1][..i] == deliveries[..i];
  }

  lemma {:induction false} DeliverAllKeeps(s: State, start: State, keys: seq<Key>, deliveries: seq<Delivery>, k: Key, lease: nat)
    requires |keys| == |deliveries| && KeySet(keys) <= s.Keys && KeySet(keys) <= start.Keys && k in s
    ensures DeliverAll(s, start, keys, deliveries, lease)[k].row.publishedAt == s[k].row.publishedAt
  {
    if keys != [] {
      var n := |keys| - 1;
      assert KeySet(keys[..n]) <= KeySet(keys) && keys[n] in KeySet(keys);
      DeliverAllKeeps(s, start, keys[..n], deliveries[..n], k, lease);
    }
  }

  /** The claim has used up the attempts of the row. */
  predicate Exhausted(row: Row) { row.attempts + 1 > row.maxAttempts }

  predicate Queues(row: Row, delivery: Delivery) { !Exhausted(row) && delivery.Published? }

  /** An unfinished, unclaimed row after one pass over it. */
  function RowAfterPass(row: Row, now: int, delivery: Delivery, lease: nat): Row {
    if Exhausted(row) then row.(attempts := row.attempts + 1, failedAt := Some(now))
    else
      var published := row.(attempts := row.attempts + 1, publishAttempts := row.publishAttempts + 1, publishedAt := Some(now));
      match delivery
      case Failed(Some(at)) =>
        published.(availableAt := Max(row.availableAt, at + RetryDelayMs(lease, row.publishAttempts + 1)))
      case _ => published
  }

  function DeliverOne(e: Entry, delivery: Delivery, lease: nat): Entry {
    if e.row.failedAt.Some? then e
    else
      match delivery
      case Published => PublishEntry(e)
      case Failed(None) => e
      case Failed(Some(at)) => FailEntry(e, e.row.publishAttempts, at, lease)
  }

  /** Each row of the pass is delivered once, and no other entry is touched. */
  lemma {:induction false} DeliverAllAt(start: State, keys: seq<Key>, deliveries: seq<Delivery>, lease: nat)
    requires |keys| == |deliveries| && KeySet(keys) <= start.Keys
    requires forall i, j :: 0 <= i < j < |keys| ==> keys[i] != keys[j]
    ensures var r := DeliverAll(start, start, keys, deliveries, lease);
            && (forall k :: k in start && k !in keys ==> r[k] == start[k])
            && (forall i :: 0 <= i < |keys| ==> keys[i] in start && r[keys[i]] == DeliverOne(start[keys[i]], deliveries[i], lease))
  {
    if keys != [] {
      var n := |keys| - 1;
      assert KeySet(keys[..n]) <= KeySet(keys) && keys[n] in KeySet(keys);
      DeliverAllAt(start, keys[..n], deliveries[..n], lease);
      var before := DeliverAll(start, start, keys[..n], deliveries[..n], lease);
      var r := DeliverAll(start, start, keys, deliveries, lease);
      assert keys[n] !in keys[..n];
      assert before[keys[n]] == start[keys[n]];
      forall k | k in start && k !in keys ensures r[k] == start[k] { assert k !in keys[..n] && k != keys[n]; }
      forall i | 0 <= i < |keys| ensures keys[i] in start && r[keys[i]] == DeliverOne(start[keys[i]], deliveries[i], lease) {
        if i < n { assert keys[..n][i] == keys[i] && deliveries[..n][i] == deliveries[i]; }
      }
    }
  }

  lemma DeliveredAfterClaim(e: Entry, now: int, delivery: Delivery, lease: nat)
    requires e.row.completedAt.None? && e.row.failedAt.None?
    ensures var f := DeliverOne(ClaimEntry(e, now), delivery, lease);
            && f.row == RowAfterPass(e.row, now, delivery, lease)
            && (f.queued <==> e.queued || Queues(e.row, delivery))
  {
  }

  lemma PassOutcome(s: State, selected: seq<Key>, now: int, deliveries: seq<Delivery>, lease: nat)
    requires |selected| == |deliveries| && forall k :: k in selected ==> k in s && Claimable(s[k].row, now, lease)
    requires forall i, j :: 0 <= i < j < |selected| ==> selected[i] != selected[j]
    ensures var start := ClaimStep(s, KeySet(selected), now, lease);
            && start.Keys == s.Keys && KeySet(selected) <= start.Keys
            && var r := DeliverAll(start, start, selected, deliveries, lease);
            && (forall k :: k in s && k !in selected ==> r[k] == s[k])
            && (forall i :: 0 <= i < |selected| ==>
                  && r[selected[i]].row == RowAfterPass(s[selected[i]].row, now, deliveries[i], lease)
                  && (r[selected[i]].queued <==> s[selected[i]].queued || Queues(s[selected[i]].row, deliveries[i])))
  {
    var start := ClaimStep(s, KeySet(selected), now, lease);
    ClaimStepAt(s, selected, now, lease);
    DeliverAllAt(start, selected, deliveries, lease);
    forall i | 0 <= i < |selected|
      ensures selected[i] in s && start[selected[i]] == ClaimEntry(s[selected[i]], now)
    {
      assert selected[i] in selected;
    }
    forall i | 0 <= i < |selected| { DeliveredAfterClaim(s[selected[i]], now, deliveries[i], lease); }
  }

  /** The protocol steps of a pass, given the rows as they were claimed. */
  function PassSteps(start: State, keys: seq<Key>, deliveries: seq<Delivery>): seq<Step>
    requires |keys| == |deliveries| && forall k :: k in keys ==> k in start
  {
    if keys == [] then []
    else
      var n := |keys| - 1;
      PassSteps(start, keys[..n], deliveries[..n]) + StepFor(start[keys[n]].row, keys[n], deliveries[n])
  }

  function StepFor(claimed: Row, k: Key, delivery: Delivery): seq<Step> {
    if claimed.failedAt.Some? then []
    else
      match delivery
      case Published => [Publish(k)]
      case Failed(None) => []
      case Failed(Some(at)) => [RecordFailure(k, claimed.publishAttempts, at)]
  }

  /** `step` is what the pass does with a claimed row: publish its job, or record its failure. */
  predicate Performs(step: Step, claimed: Row, k: Key, delivery: Delivery) {
    && claimed.failedAt.None?
    && match delivery
       case Published => step == Publish(k)
       case Failed(None) => false
       case Failed(Some(at)) => step == RecordFailure(k, claimed.publishAttempts, at)
  }

  /** One `Publish` for each published row, one `RecordFailure` for each recorded failure, and nothing else. */
  lemma {:induction false} StepsOfPass(start: State, keys: seq<Key>, deliveries: seq<Delivery>, step: Step)
    requires |keys| == |deliveries| && forall k :: k in keys ==> k in start
    ensures step in PassSteps(start, keys, deliveries) <==>
              exists i :: 0 <= i < |keys| && Performs(step, start[keys[i]].row, keys[i], deliveries[i])
  {
    if keys != [] {
      var n := |keys| - 1;
      StepsOfPass(start, keys[..n], deliveries[..n], step);
      var claimed := start[keys[n]].row;
      assert step in StepFor(claimed, keys[n], deliveries[n]) <==> Performs(step, claimed, keys[n], deliveries[n]);
      if i :| 0 <= i < n && Performs(step, start[keys[i]].row, keys[i], deliveries[i]) {
        assert keys[..n][i] == keys[i] && deliveries[..n][i] == deliveries[i];
      }
    }
  }

  function KeyOf(step: Step): Option<Key> {
    match step
    case Publish(k) => Some(k)
    case RecordFailure(k, _, _) => Some(k)
    case _ => None
  }

  /** No row is handled twice. */
  lemma {:induction false} PassHandlesOnce(start: State, keys: seq<Key>, deliveries: seq<Delivery>)
    requires |keys| == |deliveries| && forall k :: k in keys ==> k in start
    requires forall i, j :: 0 <= i < j < |keys| ==> keys[i] != keys[j]
    ensures EachOnce(PassSteps(start, keys, deliveries), keys)
  {
    if keys != [] {
      var n := |keys| - 1;
      PassHandlesOnce(start, keys[..n], deliveries[..n]);
      var init, last := PassSteps(start, keys[..n], deliveries[..n]), StepFor(start[keys[n]].row, keys[n], deliveries[n]);
      assert keys[n] !in keys[..n] && keys == keys[..n] + [keys[n]];
      EachOnceSnoc(init, keys[..n], last, keys[n]);
    }
  }

  /** The steps are about keys of the list, and no two about the same key. */
  predicate EachOnce(steps: seq<Step>, keys: seq<Key>) {
    && (forall i :: 0 <= i < |steps| ==> IsAbout(steps[i], keys))
    && (forall i, j :: 0 <= i < j < |steps| ==> KeyOf(steps[i]) != KeyOf(steps[j]))
  }

  lemma EachOnceSnoc(init: seq<Step>, keys: seq<Key>, last: seq<Step>, k: Key)
    requires EachOnce(init, keys) && k !in keys && |last| <= 1 && forall step :: step in last ==> KeyOf(step) == Some(k)
    ensures EachOnce(init + last, keys + [k])
  {
    forall i | 0 <= i < |init| ensures IsAbout(init[i], keys + [k]) && KeyOf(init[i]) != Some(k) {
      assert IsAbout(init[i], keys);
    }
    if last != [] { assert last[0] in last; }
  }

  predicate IsAbout(step: Step, keys: seq<Key>) { KeyOf(step).Some? && KeyOf(step).value in keys }

  /** What the pass does after its claim is the run of exactly its steps, so every result about runs covers the relay. */
  lemma {:induction false} DeliverAllIsRun(s: State, start: State, keys: seq<Key>, deliveries: seq<Delivery>, lease: nat)
    requires |keys| == |deliveries| && KeySet(keys) <= s.Keys && KeySet(keys) <= start.Keys
    ensures forall k :: k in keys ==> k in start
    ensures DeliverAll(s, start, keys, deliveries, lease) == Run(lease, s, PassSteps(start, keys, deliveries))
  {
    assert forall k :: k in keys ==> k in KeySet(keys);
    if keys != [] {
      var n := |keys| - 1;
      assert KeySet(keys[..n]) <= KeySet(keys) && keys[n] in KeySet(keys);
      DeliverAllIsRun(s, start, keys[..n], deliveries[..n], lease);
      var init, last := PassSteps(start, keys[..n], deliveries[..n]), StepFor(start[keys[n]].row, keys[n], deliveries[n]);
      RunConcat(lease, s, init, last);
      RunStepFor(lease, Run(lease, s, init), start[keys[n]].row, keys[n], deliveries[n]);
    }
  }

  lemma RunStepFor(lease: nat, s: State, claimed: Row, k: Key, delivery: Delivery)
    requires k in s
    ensures Run(lease, s, StepFor(claimed, k, delivery)) == Deliver(s, claimed, k, delivery, lease)
  {
    var steps := StepFor(claimed, k, delivery);
    if steps != [] {
      assert steps[1..] == [];
      assert Run(lease, s, steps) == Apply(lease, s, steps[0]);
    }
  }

  lemma {:induction false} RunConcat(lease: nat, s: State, a: seq<Step>, b: seq<Step>)
    ensures Run(lease, s, a + b) == Run(lease, Run(lease, s, a), b)
    decreases |a|
  {
    if a == [] {
      assert a + b == b;
    } else {
      assert (a + b)[1..] == a[1..] + b;
      RunConcat(lease, Apply(lease, s, a[0]), a[1..], b);
    }
  }
}
