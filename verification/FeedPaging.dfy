/**
 * Cursor paging over immutable ranking snapshots: a page revalidates candidates
 * in order until it is full, a cursor names the last candidate examined, and a
 * finished snapshot continues in the next batch.
 */
module FeedPaging {
  import opened Common

  datatype Candidate = Candidate(userId: nat, score: real)

  datatype CoarseCursor = CoarseCursor(matchUpperBound: real, userId: nat)

  datatype Ranking = Ranking(snapshotId: nat, ranked: seq<Candidate>, nextBatch: Option<CoarseCursor>)

  datatype BatchKey = Root | After(cursor: CoarseCursor)

  datatype Cursor = Cursor(
    viewerId: nat, generation: nat, filterHash: nat, batchKey: BatchKey,
    snapshotId: nat, lastScore: real, lastCandidateId: nat)

  datatype FeedView = FeedView(items: seq<Candidate>, nextCursor: Option<Cursor>)

  datatype FeedError = InvalidLimit | NotEligible | CursorInvalid | CursorStale

  /** Number.EPSILON */
  const EPSILON: real := 1.0 / 4503599627370496.0

  predicate DistinctIds(ranked: seq<Candidate>) {
    forall i, j :: 0 <= i < j < |ranked| ==> ranked[i].userId != ranked[j].userId
  }

  // ----- What a page is -----

  /**
   * The candidates at positions `from..to` that pass. `passes(k)` is the verdict
   * of the revalidation query that examined position `k`.
   */
  function Passing(ranked: seq<Candidate>, from: nat, upTo: nat, passes: nat -> bool): seq<Candidate>
    requires from <= upTo <= |ranked|
  {
    if from == upTo then []
    else Passing(ranked, from, upTo - 1, passes) + if passes(upTo - 1) then [ranked[upTo - 1]] else []
  }

  lemma {:induction false} PassingSplit(ranked: seq<Candidate>, a: nat, b: nat, c: nat, passes: nat -> bool)
    requires a <= b <= c <= |ranked|
    ensures Passing(ranked, a, c, passes) == Passing(ranked, a, b, passes) + Passing(ranked, b, c, passes)
    decreases c
  {
    if b < c { PassingSplit(ranked, a, b, c - 1, passes); }
  }

  /** `positions` are those of `from..to` that pass, each once and in order. */
  ghost predicate Picks(positions: seq<nat>, from: nat, upTo: nat, passes: nat -> bool) {
    && (forall i :: 0 <= i < |positions| ==> from <= positions[i] < upTo && passes(positions[i]))
    && (forall i, j :: 0 <= i < j < |positions| ==> positions[i] < positions[j])
    && (forall k: nat :: from <= k < upTo && passes(k) ==> k in positions)
  }

  /** The items are the candidates at those positions. */
  predicate AreAt(items: seq<Candidate>, ranked: seq<Candidate>, positions: seq<nat>) {
    |items| == |positions| && forall i :: 0 <= i < |items| ==> positions[i] < |ranked| && items[i] == ranked[positions[i]]
  }

  /** Nothing that passes is left out, nothing else is shown, and the order of the ranking is kept. */
  lemma {:induction false} PassingPicks(ranked: seq<Candidate>, from: nat, upTo: nat, passes: nat -> bool)
      returns (positions: seq<nat>)
    requires from <= upTo <= |ranked|
    ensures Picks(positions, from, upTo, passes) && AreAt(Passing(ranked, from, upTo, passes), ranked, positions)
  {
    if from == upTo {
      positions := [];
    } else {
      var k := upTo - 1;
      var init := PassingPicks(ranked, from, k, passes);
      if passes(k) {
        positions := init + [k];
        PickedOneMore(ranked, Passing(ranked, from, k, passes), init, k);
      } else {
        positions := init;
        assert Passing(ranked, from, upTo, passes) == Passing(ranked, from, k, passes);
      }
      PicksOneMore(init, from, k, passes);
    }
  }

  lemma PickedOneMore(ranked: seq<Candidate>, items: seq<Candidate>, positions: seq<nat>, k: nat)
    requires AreAt(items, ranked, positions) && k < |ranked|
    ensures AreAt(items + [ranked[k]], ranked, positions + [k])
  {
  }

  lemma PicksOneMore(init: seq<nat>, from: nat, k: nat, passes: nat -> bool)
    requires Picks(init, from, k, passes) && from <= k
    ensures Picks(if passes(k) then init + [k] else init, from, k + 1, passes)
  {
    var positions := if passes(k) then init + [k] else init;
    forall j: nat | from <= j < k + 1 && passes(j) ensures j in positions {
      if j < k { assert j in init; } else { assert positions[|init|] == j; }
    }
  }

  /** The page of `limit` items from `from` ends here: full exactly, or at the end of the ranking. */
  ghost predicate PageEnd(ranked: seq<Candidate>, from: nat, end: nat, limit: nat, passes: nat -> bool) {
    && from <= end <= |ranked|
    && |Passing(ranked, from, end, passes)| <= limit
    && (end == |ranked| || |Passing(ranked, from, end, passes)| == limit)
    && (from < end && |Passing(ranked, from, end, passes)| == limit ==> passes(end - 1))
  }

  // ----- The page loop -----

  /** Ids of a batch that the policy query still allows. */
  function Revalidate(ranked: seq<Candidate>, from: nat, upTo: nat, passes: nat -> bool): set<nat>
    requires from <= upTo <= |ranked|
  {
    set k | from <= k < upTo && passes(k) :: ranked[k].userId
  }

  /** Fills a page batch by batch; `end` is the position after the last candidate examined. */
  method SelectPage(ranked: seq<Candidate>, from: nat, limit: nat, passes: nat -> bool)
    returns (selected: seq<Candidate>, lastExamined: Option<Candidate>, end: nat)
    requires DistinctIds(ranked) && from <= |ranked|
    ensures PageEnd(ranked, from, end, limit, passes)
    ensures selected == Passing(ranked, from, end, passes)
    ensures exists positions :: Picks(positions, from, end, passes) && AreAt(selected, ranked, positions)
    ensures |selected| <= limit && (|selected| == limit || end == |ranked|)
    ensures lastExamined == if from < end then Some(ranked[end - 1]) else None
    ensures limit >= 1 && from < |ranked| ==> from < end
  {
    selected, lastExamined, end := [], None, from;
    while |selected| < limit && end < |ranked|
      invariant from <= end <= |ranked| && |selected| <= limit
      invariant selected == Passing(ranked, from, end, passes)
      invariant lastExamined == if from < end then Some(ranked[end - 1]) else None
      invariant from < end && |selected| == limit ==> passes(end - 1)
      decreases |ranked| - end
    {
      var needed := limit - |selected|;
      var stop := Min(end + needed, |ranked|);
      var allowed := Revalidate(ranked, end, stop, passes);
      var position := end;
      while position < stop
        invariant end <= position <= stop
        invariant selected == Passing(ranked, from, position, passes)
        invariant |selected| <= limit - (stop - position)
        invariant |selected| == limit && position == stop && end < stop ==> passes(stop - 1)
      {
        assert ranked[position].userId in allowed <==> passes(position);
        if ranked[position].userId in allowed {
          selected := selected + [ranked[position]];
        }
        position := position + 1;
      }
      lastExamined := Some(ranked[stop - 1]);
      end := stop;
    }
    ghost var positions := PassingPicks(ranked, from, end, passes);
  }

  // ----- Cursors -----

  predicate Near(a: real, b: real) { -EPSILON <= a - b <= EPSILON }

  /** findIndex of the candidate the cursor names, plus one. */
  function CursorPosition(ranked: seq<Candidate>, cursor: Cursor): (r: Result<nat, FeedError>)
    ensures r.Ok? ==>
      && 1 <= r.value <= |ranked|
      && ranked[r.value - 1].userId == cursor.lastCandidateId && Near(ranked[r.value - 1].score, cursor.lastScore)
    ensures r.Err? ==>
      && r.error == CursorStale
      && forall i :: 0 <= i < |ranked| ==> ranked[i].userId != cursor.lastCandidateId || !Near(ranked[i].score, cursor.lastScore)
  {
    if ranked == [] then Err(CursorStale)
    else if ranked[0].userId == cursor.lastCandidateId && Near(ranked[0].score, cursor.lastScore) then Ok(1)
    else
      match CursorPosition(ranked[1..], cursor)
      case Err(e) =>
        assert forall i :: 1 <= i < |ranked| ==> ranked[i] == ranked[1..][i - 1];
        Err(e)
      case Ok(n) => Ok(n + 1)
  }

  /** A cursor made after position `end` leads back to `end`. */
  lemma CursorRoundTrip(ranked: seq<Candidate>, end: nat, cursor: Cursor)
    requires DistinctIds(ranked) && 1 <= end <= |ranked|
    requires cursor.lastCandidateId == ranked[end - 1].userId && cursor.lastScore == ranked[end - 1].score
    ensures CursorPosition(ranked, cursor) == Ok(end)
  {
    assert Near(ranked[end - 1].score, cursor.lastScore);
  }

  // ----- The whole walk -----

  /** Verdicts per batch and position. */
  type Verdicts = (nat, nat) -> bool

  function Of(v: Verdicts, b: nat): nat -> bool { (k: nat) => v(b, k) }

  /** A chain of batches as the repository produces them: one with a successor is never empty. */
  predicate Chain(batches: seq<Ranking>) {
    && |batches| >= 1
    && forall b :: 0 <= b < |batches| ==>
         && DistinctIds(batches[b].ranked)
         && (batches[b].nextBatch.Some? <==> b + 1 < |batches|)
         && (batches[b].nextBatch.Some? ==> batches[b].ranked != [])
  }

  ghost function EndOf(ranked: seq<Candidate>, from: nat, limit: nat, passes: nat -> bool): (end: nat)
    requires from <= |ranked| && limit >= 1
    ensures PageEnd(ranked, from, end, limit, passes) && (from < |ranked| ==> from < end)
  {
    PageEndExists(ranked, from, limit, passes);
    var end :| PageEnd(ranked, from, end, limit, passes) && (from < |ranked| ==> from < end);
    end
  }

  lemma {:induction false} PageEndExists(ranked: seq<Candidate>, from: nat, limit: nat, passes: nat -> bool)
    requires from <= |ranked| && limit >= 1
    ensures exists end :: PageEnd(ranked, from, end, limit, passes) && (from < |ranked| ==> from < end)
  {
    if from == |ranked| {
      assert PageEnd(ranked, from, from, limit, passes);
    } else {
      var end := from;
      while end < |ranked| && |Passing(ranked, from, end, passes)| < limit
        invariant from <= end <= |ranked|
        invariant |Passing(ranked, from, end, passes)| <= limit
        invariant from < end && |Passing(ranked, from, end, passes)| == limit ==> passes(end - 1)
      {
        end := end + 1;
      }
      assert PageEnd(ranked, from, end, limit, passes);
    }
  }

  /** A page is determined by its start, its limit and the verdicts. */
  lemma PageEndUnique(ranked: seq<Candidate>, from: nat, e: nat, f: nat, limit: nat, passes: nat -> bool)
    requires limit >= 1
    requires PageEnd(ranked, from, e, limit, passes) && PageEnd(ranked, from, f, limit, passes)
    ensures e == f
  {
    if e < f {
      PassingSplit(ranked, from, e, f, passes);
    } else if f < e {
      PassingSplit(ranked, from, f, e, passes);
    }
  }

  /** A page is followed by a cursor exactly when it examined something and more may come. */
  predicate HasCursor(r: Ranking, from: nat, end: nat) {
    (end < |r.ranked| || r.nextBatch.Some?) && from < end
  }

  /** The pages from position `from` of batch `b` on, each starting where the one before it ended. */
  ghost function Walk(batches: seq<Ranking>, b: nat, from: nat, limit: nat, v: Verdicts): seq<seq<Candidate>>
    requires Chain(batches) && b < |batches| && from <= |batches[b].ranked| && limit >= 1
    decreases |batches| - b, |batches[b].ranked| - from
  {
    var r := batches[b];
    var end := EndOf(r.ranked, from, limit, Of(v, b));
    var page := Passing(r.ranked, from, end, Of(v, b));
    if !HasCursor(r, from, end) then [page]
    else if end == |r.ranked| then [page] + Walk(batches, b + 1, 0, limit, v)
    else [page] + Walk(batches, b, end, limit, v)
  }

  function Flatten(pages: seq<seq<Candidate>>): seq<Candidate> {
    if pages == [] then [] else pages[0] + Flatten(pages[1..])
  }

  /** Everything that passes from here on, over all remaining batches. */
  function AllPassing(batches: seq<Ranking>, b: nat, from: nat, v: Verdicts): seq<Candidate>
    requires b < |batches| && from <= |batches[b].ranked|
    decreases |batches| - b
  {
    Passing(batches[b].ranked, from, |batches[b].ranked|, Of(v, b))
      + if b + 1 < |batches| then AllPassing(batches, b + 1, 0, v) else []
  }

  /** A ranked position of some batch. */
  datatype Spot = Spot(batch: nat, position: nat)

  predicate Earlier(p: Spot, q: Spot) { p.batch < q.batch || (p.batch == q.batch && p.position < q.position) }

  /** A position at or after position `from` of batch `b` whose candidate passes. */
  predicate Passes(batches: seq<Ranking>, b: nat, from: nat, v: Verdicts, p: Spot) {
    && b <= p.batch < |batches| && p.position < |batches[p.batch].ranked| && (p.batch == b ==> from <= p.position)
    && v(p.batch, p.position)
  }

  predicate InOrder(spots: seq<Spot>) { forall i, j :: 0 <= i < j < |spots| ==> Earlier(spots[i], spots[j]) }

  /** The items are the candidates at those spots, all of which pass. */
  predicate Shown(items: seq<Candidate>, spots: seq<Spot>, batches: seq<Ranking>, b: nat, from: nat, v: Verdicts) {
    && |items| == |spots|
    && forall i :: 0 <= i < |spots| ==> Passes(batches, b, from, v, spots[i])
                                        && items[i] == batches[spots[i].batch].ranked[spots[i].position]
  }

  /** The items are those at all passing positions from `from` of batch `b` on, each once and in order. */
  ghost predicate Shows(items: seq<Candidate>, spots: seq<Spot>, batches: seq<Ranking>, b: nat, from: nat, v: Verdicts) {
    Shown(items, spots, batches, b, from, v) && InOrder(spots) && forall p :: Passes(batches, b, from, v, p) ==> p in spots
  }

  lemma {:induction false} AllPassingShows(batches: seq<Ranking>, b: nat, from: nat, v: Verdicts) returns (spots: seq<Spot>)
    requires b < |batches| && from <= |batches[b].ranked|
    ensures Shows(AllPassing(batches, b, from, v), spots, batches, b, from, v)
    decreases |batches| - b
  {
    var here := BatchShows(batches, b, from, v);
    if b + 1 == |batches| {
      spots := here;
    } else {
      var rest := AllPassingShows(batches, b + 1, 0, v);
      spots := here + rest;
      ShowsAppend(batches, b, from, v, here, rest);
    }
  }

  /** The same for one batch. */
  ghost predicate ShowsHere(items: seq<Candidate>, spots: seq<Spot>, batches: seq<Ranking>, b: nat, from: nat, v: Verdicts) {
    && Shown(items, spots, batches, b, from, v) && InOrder(spots)
    && (forall i :: 0 <= i < |spots| ==> spots[i].batch == b)
    && (forall p :: Passes(batches, b, from, v, p) && p.batch == b ==> p in spots)
  }

  lemma BatchShows(batches: seq<Ranking>, b: nat, from: nat, v: Verdicts) returns (spots: seq<Spot>)
    requires b < |batches| && from <= |batches[b].ranked|
    ensures ShowsHere(Passing(batches[b].ranked, from, |batches[b].ranked|, Of(v, b)), spots, batches, b, from, v)
  {
    var positions := PassingPicks(batches[b].ranked, from, |batches[b].ranked|, Of(v, b));
    spots := seq(|positions|, i requires 0 <= i < |positions| => Spot(b, positions[i]));
    forall p | Passes(batches, b, from, v, p) && p.batch == b ensures p in spots {
      assert Of(v, b)(p.position);
      var i :| 0 <= i < |positions| && positions[i] == p.position;
      assert spots[i] == p;
    }
    forall i | 0 <= i < |spots| ensures v(b, positions[i]) { assert Of(v, b)(positions[i]); }
  }

  lemma ShowsAppend(batches: seq<Ranking>, b: nat, from: nat, v: Verdicts, here: seq<Spot>, rest: seq<Spot>)
    requires b + 1 < |batches| && from <= |batches[b].ranked|
    requires ShowsHere(Passing(batches[b].ranked, from, |batches[b].ranked|, Of(v, b)), here, batches, b, from, v)
    requires Shows(AllPassing(batches, b + 1, 0, v), rest, batches, b + 1, 0, v)
    ensures Shows(AllPassing(batches, b, from, v), here + rest, batches, b, from, v)
  {
    forall p | Passes(batches, b, from, v, p) ensures p in here + rest {
      if p.batch != b { assert Passes(batches, b + 1, 0, v, p); }
    }
    forall i | 0 <= i < |rest| ensures Passes(batches, b, from, v, rest[i]) && rest[i].batch > b {
      assert Passes(batches, b + 1, 0, v, rest[i]);
    }
    InOrderAppend(here, rest, b);
    ShownAppend(batches, b, from, v, Passing(batches[b].ranked, from, |batches[b].ranked|, Of(v, b)), here,
                AllPassing(batches, b + 1, 0, v), rest);
  }

  lemma InOrderAppend(here: seq<Spot>, rest: seq<Spot>, b: nat)
    requires InOrder(here) && InOrder(rest)
    requires forall i :: 0 <= i < |here| ==> here[i].batch == b
    requires forall i :: 0 <= i < |rest| ==> rest[i].batch > b
    ensures InOrder(here + rest)
  {
  }

  lemma ShownAppend(batches: seq<Ranking>, b: nat, from: nat, v: Verdicts,
                    items: seq<Candidate>, here: seq<Spot>, more: seq<Candidate>, rest: seq<Spot>)
    requires Shown(items, here, batches, b, from, v) && Shown(more, rest, batches, b + 1, 0, v)
    ensures Shown(items + more, here + rest, batches, b, from, v)
  {
    forall i | 0 <= i < |rest| ensures Passes(batches, b, from, v, rest[i]) { assert Passes(batches, b + 1, 0, v, rest[i]); }
  }

  /**
   * Consecutive pages visit every ranked position of every batch once and in
   * order: the items are exactly the candidates that pass, no page exceeds the
   * limit, and the last page is the one after which nothing is left.
   */
  lemma {:induction false} PagesCoverBatches(batches: seq<Ranking>, b: nat, from: nat, limit: nat, v: Verdicts)
    requires Chain(batches) && b < |batches| && limit >= 1
    requires from < |batches[b].ranked| || (from == 0 && b + 1 == |batches|)
    ensures Flatten(Walk(batches, b, from, limit, v)) == AllPassing(batches, b, from, v)
    ensures forall k :: 0 <= k < |Walk(batches, b, from, limit, v)| ==> |Walk(batches, b, from, limit, v)[k]| <= limit
    decreases |batches| - b, |batches[b].ranked| - from
  {
    var r := batches[b];
    var n := |r.ranked|;
    var end := EndOf(r.ranked, from, limit, Of(v, b));
    var page := Passing(r.ranked, from, end, Of(v, b));
    if !HasCursor(r, from, end) {
      assert end == n && b + 1 == |batches|;
      assert Flatten([page]) == page + Flatten([page][1..]);
    } else if end == n {
      PagesCoverBatches(batches, b + 1, 0, limit, v);
      var rest := Walk(batches, b + 1, 0, limit, v);
      assert ([page] + rest)[1..] == rest;
    } else {
      PagesCoverBatches(batches, b, end, limit, v);
      var rest := Walk(batches, b, end, limit, v);
      assert ([page] + rest)[1..] == rest;
      PassingSplit(r.ranked, from, end, n, Of(v, b));
    }
  }
}

/** One feed request as a function of the stored snapshots, and walks that follow the cursors it returns. */
module FeedRequests {
  import opened Common
  import opened FeedPaging

  datatype CacheKey = CacheKey(generation: nat, filterHash: nat, batchKey: BatchKey)

  /** The valid snapshots in the cache. */
  type Store = map<CacheKey, Ranking>

  /** What stays the same during a walk: the viewer, the feed's namespace and the service's page limit. */
  datatype Feed = Feed(viewerId: nat, maxPageSize: nat, generation: nat, filterHash: nat)

  /** What the database yields for a batch; nothing when the viewer has just lost eligibility. */
  type Compute = BatchKey -> Option<Ranking>

  /** The revalidation verdict on a position of a batch, at the request that examines it. */
  type Verdict = (BatchKey, nat) -> bool

  function In(passes: Verdict, batchKey: BatchKey): nat -> bool { (k: nat) => passes(batchKey, k) }

  function KeyIn(f: Feed, batchKey: BatchKey): CacheKey { CacheKey(f.generation, f.filterHash, batchKey) }

  predicate DistinctStore(store: Store) { forall k :: k in store ==> DistinctIds(store[k].ranked) }

  ghost predicate DistinctResults(compute: Compute) {
    forall b :: compute(b).Some? ==> DistinctIds(compute(b).value.ranked)
  }

  function CursorAt(f: Feed, r: Ranking, batchKey: BatchKey, end: nat): Cursor
    requires 1 <= end <= |r.ranked|
  {
    Cursor(f.viewerId, f.generation, f.filterHash, batchKey, r.snapshotId,
           r.ranked[end - 1].score, r.ranked[end - 1].userId)
  }

  /** The page of `r` that starts at `from`, with the cursor that continues it. */
  ghost function PageOf(f: Feed, r: Ranking, from: nat, batchKey: BatchKey, limit: nat, passes: Verdict): FeedView
    requires from <= |r.ranked| && limit >= 1
  {
    var end := EndOf(r.ranked, from, limit, In(passes, batchKey));
    FeedView(Passing(r.ranked, from, end, In(passes, batchKey)),
             if HasCursor(r, from, end) then Some(CursorAt(f, r, batchKey, end)) else None)
  }

  /** The first page of a batch; a missing snapshot is computed and stored. */
  ghost function ServeBatch(f: Feed, store: Store, batchKey: BatchKey, limit: nat, compute: Compute, passes: Verdict)
    : (Store, Result<FeedView, FeedError>)
    requires limit >= 1
  {
    var key := KeyIn(f, batchKey);
    if key in store then (store, Ok(PageOf(f, store[key], 0, batchKey, limit, passes)))
    else
      match compute(batchKey)
      case None => (store, Err(NotEligible))
      case Some(r) => (store[key := r], Ok(PageOf(f, r, 0, batchKey, limit, passes)))
  }

  /** The snapshot a cursor names is still stored and still has its candidate. */
  predicate CursorLive(f: Feed, store: Store, c: Cursor) {
    && c.viewerId == f.viewerId && c.generation == f.generation && c.filterHash == f.filterHash
    && KeyIn(f, c.batchKey) in store
    && store[KeyIn(f, c.batchKey)].snapshotId == c.snapshotId
    && CursorPosition(store[KeyIn(f, c.batchKey)].ranked, c).Ok?
  }

  /** One request: the stored snapshots after it, and its answer. */
  ghost function Answer(f: Feed, store: Store, cursor: Option<Cursor>, limit: int, eligible: bool,
                        compute: Compute, passes: Verdict): (Store, Result<FeedView, FeedError>)
  {
    if limit < 1 || limit > f.maxPageSize then (store, Err(InvalidLimit))
    else if !eligible then (store, Err(NotEligible))
    else
      match cursor
      case None => ServeBatch(f, store, Root, limit, compute, passes)
      case Some(c) =>
        if c.viewerId != f.viewerId then (store, Err(CursorInvalid))
        else if !CursorLive(f, store, c) then (store, Err(CursorStale))
        else
          var r := store[KeyIn(f, c.batchKey)];
          var position := CursorPosition(r.ranked, c).value;
          if position == |r.ranked| && r.nextBatch.Some? then
            ServeBatch(f, store, After(r.nextBatch.value), limit, compute, passes)
          else (store, Ok(PageOf(f, r, position, c.batchKey, limit, passes)))
  }

  /** No request changes or drops a snapshot, a new one is what was computed, and a refusal stores nothing. */
  lemma AnswerKeepsSnapshots(f: Feed, store: Store, cursor: Option<Cursor>, limit: int, eligible: bool,
                             compute: Compute, passes: Verdict)
    ensures var (store1, r) := Answer(f, store, cursor, limit, eligible, compute, passes);
            && (forall k :: k in store ==> k in store1 && store1[k] == store[k])
            && (forall k :: k in store1 && k !in store ==>
                  k == KeyIn(f, k.batchKey) && compute(k.batchKey) == Some(store1[k]))
            && (r.Err? ==> store1 == store)
            && (DistinctStore(store) && DistinctResults(compute) ==> DistinctStore(store1))
  {
  }

  // ----- Following the cursors -----

  datatype Ending = Exhausted | Interrupted | Refused(error: FeedError)

  /** At most `calls` requests, each with the cursor that the answer before it returned. */
  ghost function Follow(f: Feed, store: Store, cursor: Option<Cursor>, limit: nat, compute: Compute, passes: Verdict,
                        calls: nat): (seq<seq<Candidate>>, Ending)
    decreases calls
  {
    if calls == 0 then ([], Interrupted)
    else
      var (store1, r) := Answer(f, store, cursor, limit, true, compute, passes);
      match r
      case Err(e) => ([], Refused(e))
      case Ok(view) =>
        if view.nextCursor.None? then ([view.items], Exhausted)
        else
          var rest := Follow(f, store1, view.nextCursor, limit, compute, passes, calls - 1);
          ([view.items] + rest.0, rest.1)
  }

  /** The snapshot a request works on: the stored one, or the one it would compute. */
  function Resolve(f: Feed, store: Store, compute: Compute, batchKey: BatchKey): Option<Ranking> {
    if KeyIn(f, batchKey) in store then Some(store[KeyIn(f, batchKey)]) else compute(batchKey)
  }

  function KeyOf(batches: seq<Ranking>, b: nat): BatchKey
    requires Chain(batches) && b < |batches|
  {
    if b == 0 then Root else After(batches[b - 1].nextBatch.value)
  }

  /** `batches` is the chain that starts at the root and follows every next batch. */
  predicate Supplies(f: Feed, store: Store, compute: Compute, batches: seq<Ranking>) {
    && Chain(batches)
    && forall b :: 0 <= b < |batches| ==> Resolve(f, store, compute, KeyOf(batches, b)) == Some(batches[b])
  }

  function ByIndex(batches: seq<Ranking>, passes: Verdict): Verdicts
    requires Chain(batches)
  {
    (b: nat, k: nat) => b < |batches| && passes(KeyOf(batches, b), k)
  }

  /** A place in a walk: its start, or the end of a page that was followed by a cursor. */
  datatype Place = Top | EndOfPage(batch: nat, end: nat)

  /** `cursor` is what the walk holds at this place. */
  predicate CursorNames(f: Feed, store: Store, cursor: Option<Cursor>, batches: seq<Ranking>, place: Place)
    requires Chain(batches)
  {
    match place
    case Top => cursor.None?
    case EndOfPage(p, end) => cursor.Some? && NamesEnd(f, store, cursor.value, batches, p, end)
  }

  predicate NamesEnd(f: Feed, store: Store, c: Cursor, batches: seq<Ranking>, p: nat, end: nat)
    requires Chain(batches)
  {
    && p < |batches| && 1 <= end <= |batches[p].ranked|
    && HasCursor(batches[p], end - 1, end)
    && c == CursorAt(f, batches[p], KeyOf(batches, p), end)
    && KeyIn(f, KeyOf(batches, p)) in store
  }

  /** The batch and position where the walk goes on. */
  function Onward(batches: seq<Ranking>, place: Place): (nat, nat) {
    match place
    case Top => (0, 0)
    case EndOfPage(p, end) => if p < |batches| && end == |batches[p].ranked| then (p + 1, 0) else (p, end)
  }

  /** The request serves the page of batch `b` from `from` and keeps the walk's snapshots. */
  ghost predicate Serves(f: Feed, answer: (Store, Result<FeedView, FeedError>), limit: nat, compute: Compute, passes: Verdict,
                         batches: seq<Ranking>, b: nat, from: nat)
    requires Chain(batches) && b < |batches| && from <= |batches[b].ranked| && limit >= 1
  {
    && answer.1 == Ok(PageOf(f, batches[b], from, KeyOf(batches, b), limit, passes))
    && Supplies(f, answer.0, compute, batches)
    && KeyIn(f, KeyOf(batches, b)) in answer.0
  }

  lemma OnwardIsInside(f: Feed, store: Store, cursor: Option<Cursor>, batches: seq<Ranking>, place: Place)
    requires Chain(batches) && CursorNames(f, store, cursor, batches, place)
    ensures var (b, from) := Onward(batches, place); b < |batches| && from <= |batches[b].ranked|
  {
  }

  /** A cursor of the walk leads exactly to the position it was made at, and the request serves the page from there. */
  lemma CursorResumes(f: Feed, store: Store, cursor: Option<Cursor>, limit: nat, compute: Compute, passes: Verdict,
                      batches: seq<Ranking>, place: Place)
    requires Supplies(f, store, compute, batches) && 1 <= limit <= f.maxPageSize
    requires CursorNames(f, store, cursor, batches, place)
    ensures var (b, from) := Onward(batches, place);
            && b < |batches| && from <= |batches[b].ranked|
            && Serves(f, Answer(f, store, cursor, limit, true, compute, passes), limit, compute, passes, batches, b, from)
  {
    OnwardIsInside(f, store, cursor, batches, place);
    if place.Top? {
      BatchIsServed(f, store, limit, compute, passes, batches, 0);
    } else if place.end == |batches[place.batch].ranked| {
      CursorMovesOn(f, store, cursor.value, limit, compute, passes, batches, place.batch);
    } else {
      CursorStays(f, store, cursor.value, limit, compute, passes, batches, place.batch, place.end);
    }
  }

  lemma CursorStays(f: Feed, store: Store, c: Cursor, limit: nat, compute: Compute, passes: Verdict,
                    batches: seq<Ranking>, p: nat, end: nat)
    requires Supplies(f, store, compute, batches) && 1 <= limit <= f.maxPageSize
    requires NamesEnd(f, store, c, batches, p, end) && end < |batches[p].ranked|
    ensures Serves(f, Answer(f, store, Some(c), limit, true, compute, passes), limit, compute, passes, batches, p, end)
  {
    NamedCursorIsLive(f, store, c, compute, batches, p, end);
    LiveCursorIsServed(f, store, c, batches[p], end, limit, compute, passes);
    StoredPageServes(f, store, limit, compute, passes, batches, p, end);
  }

  lemma CursorMovesOn(f: Feed, store: Store, c: Cursor, limit: nat, compute: Compute, passes: Verdict,
                      batches: seq<Ranking>, p: nat)
    requires Supplies(f, store, compute, batches) && 1 <= limit <= f.maxPageSize
    requires p + 1 < |batches| && NamesEnd(f, store, c, batches, p, |batches[p].ranked|)
    ensures Serves(f, Answer(f, store, Some(c), limit, true, compute, passes), limit, compute, passes, batches, p + 1, 0)
  {
    NamedCursorIsLive(f, store, c, compute, batches, p, |batches[p].ranked|);
    LiveCursorIsServed(f, store, c, batches[p], |batches[p].ranked|, limit, compute, passes);
    BatchIsServed(f, store, limit, compute, passes, batches, p + 1);
  }

  lemma StoredPageServes(f: Feed, store: Store, limit: nat, compute: Compute, passes: Verdict, batches: seq<Ranking>,
                         p: nat, end: nat)
    requires Supplies(f, store, compute, batches) && limit >= 1 && p < |batches| && end <= |batches[p].ranked|
    requires KeyIn(f, KeyOf(batches, p)) in store
    ensures Serves(f, (store, Ok(PageOf(f, batches[p], end, KeyOf(batches, p), limit, passes))), limit, compute, passes,
                   batches, p, end)
  {
  }

  lemma LiveCursorIsServed(f: Feed, store: Store, c: Cursor, r: Ranking, end: nat, limit: nat, compute: Compute, passes: Verdict)
    requires CursorLive(f, store, c) && store[KeyIn(f, c.batchKey)] == r && 1 <= limit <= f.maxPageSize
    requires CursorPosition(r.ranked, c) == Ok(end)
    ensures Answer(f, store, Some(c), limit, true, compute, passes) ==
            if end == |r.ranked| && r.nextBatch.Some? then ServeBatch(f, store, After(r.nextBatch.value), limit, compute, passes)
            else (store, Ok(PageOf(f, r, end, c.batchKey, limit, passes)))
  {
  }

  lemma NamedCursorIsLive(f: Feed, store: Store, c: Cursor, compute: Compute, batches: seq<Ranking>, p: nat, end: nat)
    requires Supplies(f, store, compute, batches) && NamesEnd(f, store, c, batches, p, end)
    ensures CursorLive(f, store, c) && c.batchKey == KeyOf(batches, p)
    ensures store[KeyIn(f, c.batchKey)] == batches[p] && CursorPosition(batches[p].ranked, c) == Ok(end)
  {
    assert Resolve(f, store, compute, KeyOf(batches, p)) == Some(batches[p]);
    CursorRoundTrip(batches[p].ranked, end, c);
  }

  lemma BatchIsServed(f: Feed, store: Store, limit: nat, compute: Compute, passes: Verdict, batches: seq<Ranking>, b: nat)
    requires Supplies(f, store, compute, batches) && limit >= 1 && b < |batches|
    ensures Serves(f, ServeBatch(f, store, KeyOf(batches, b), limit, compute, passes), limit, compute, passes, batches, b, 0)
  {
    assert Resolve(f, store, compute, KeyOf(batches, b)) == Some(batches[b]);
    var store1 := ServeBatch(f, store, KeyOf(batches, b), limit, compute, passes).0;
    forall d | 0 <= d < |batches| ensures Resolve(f, store1, compute, KeyOf(batches, d)) == Some(batches[d]) {
      assert Resolve(f, store, compute, KeyOf(batches, d)) == Some(batches[d]);
    }
  }

  /** The positions that a walk has not examined yet. */
  function Remaining(batches: seq<Ranking>, b: nat, from: nat): nat
    requires b < |batches| && from <= |batches[b].ranked|
    decreases |batches| - b
  {
    |batches[b].ranked| - from + if b + 1 < |batches| then Remaining(batches, b + 1, 0) else 0
  }

  /** The walk holds `cursor`, which leads to position `from` of batch `b`. */
  ghost predicate OnCourse(f: Feed, store: Store, cursor: Option<Cursor>, limit: nat, compute: Compute,
                           batches: seq<Ranking>, place: Place, b: nat, from: nat)
  {
    && Supplies(f, store, compute, batches) && 1 <= limit <= f.maxPageSize
    && CursorNames(f, store, cursor, batches, place) && Onward(batches, place) == (b, from)
    && b < |batches| && from <= |batches[b].ranked|
  }

  /** The requests from here on answer the pages from here on. */
  ghost predicate Agrees(f: Feed, store: Store, cursor: Option<Cursor>, limit: nat, compute: Compute, passes: Verdict,
                         batches: seq<Ranking>, b: nat, from: nat, calls: nat)
    requires Chain(batches) && b < |batches| && from <= |batches[b].ranked| && limit >= 1
  {
    Follow(f, store, cursor, limit, compute, passes, calls)
    == (Walk(batches, b, from, limit, ByIndex(batches, passes)), Exhausted)
  }

  /** A place in a walk together with what the walk holds there. */
  datatype Course = Course(store: Store, cursor: Option<Cursor>, place: Place, b: nat, from: nat)

  /** One request of the walk: it ends the walk, or agreement from the next place on is agreement from this one on. */
  lemma FollowStep(f: Feed, store: Store, cursor: Option<Cursor>, limit: nat, compute: Compute, passes: Verdict,
                   batches: seq<Ranking>, place: Place, b: nat, from: nat, calls: nat)
    returns (next: Option<Course>)
    requires OnCourse(f, store, cursor, limit, compute, batches, place, b, from) && calls >= 1
    ensures next.None? ==> Agrees(f, store, cursor, limit, compute, passes, batches, b, from, calls)
    ensures next.Some? ==>
      var n := next.value;
      && OnCourse(f, n.store, n.cursor, limit, compute, batches, n.place, n.b, n.from)
      && Remaining(batches, n.b, n.from) < Remaining(batches, b, from)
      && (Agrees(f, n.store, n.cursor, limit, compute, passes, batches, n.b, n.from, calls - 1) ==>
            Agrees(f, store, cursor, limit, compute, passes, batches, b, from, calls))
  {
    var v := ByIndex(batches, passes);
    CursorResumes(f, store, cursor, limit, compute, passes, batches, place);
    var answer := Answer(f, store, cursor, limit, true, compute, passes);
    AnswerContinues(f, answer, limit, compute, passes, batches, b, from);
    FollowOnce(f, store, cursor, limit, compute, passes, calls);
    var end := EndOf(batches[b].ranked, from, limit, Of(v, b));
    WalkGoesOn(batches, b, from, end, limit, v);
    if HasCursor(batches[b], from, end) {
      var (b1, from1) := Onward(batches, EndOfPage(b, end));
      next := Some(Course(answer.0, answer.1.value.nextCursor, EndOfPage(b, end), b1, from1));
    } else {
      next := None;
    }
  }

  /** The walk over requests is the walk over positions. */
  lemma {:induction false} FollowIsWalk(f: Feed, store: Store, cursor: Option<Cursor>, limit: nat, compute: Compute,
                                        passes: Verdict, batches: seq<Ranking>, place: Place, b: nat, from: nat, calls: nat)
    requires OnCourse(f, store, cursor, limit, compute, batches, place, b, from) && calls > Remaining(batches, b, from)
    ensures Agrees(f, store, cursor, limit, compute, passes, batches, b, from, calls)
    decreases calls
  {
    var next := FollowStep(f, store, cursor, limit, compute, passes, batches, place, b, from, calls);
    if next.Some? {
      var n := next.value;
      FollowIsWalk(f, n.store, n.cursor, limit, compute, passes, batches, n.place, n.b, n.from, calls - 1);
    }
  }

  /** A served page has the walk's items, and a cursor for its end exactly when the walk goes on. */
  lemma AnswerContinues(f: Feed, answer: (Store, Result<FeedView, FeedError>), limit: nat, compute: Compute, passes: Verdict,
                        batches: seq<Ranking>, b: nat, from: nat)
    requires Chain(batches) && b < |batches| && from <= |batches[b].ranked| && limit >= 1
    requires Serves(f, answer, limit, compute, passes, batches, b, from)
    ensures var q := Of(ByIndex(batches, passes), b);
            var end := EndOf(batches[b].ranked, from, limit, q);
            && answer.1.Ok? && Supplies(f, answer.0, compute, batches)
            && answer.1.value.items == Passing(batches[b].ranked, from, end, q)
            && (answer.1.value.nextCursor.Some? <==> HasCursor(batches[b], from, end))
            && (HasCursor(batches[b], from, end) ==>
                  CursorNames(f, answer.0, answer.1.value.nextCursor, batches, EndOfPage(b, end)))
  {
    SameVerdicts(batches, passes, b, from, limit);
  }

  lemma FollowOnce(f: Feed, store: Store, cursor: Option<Cursor>, limit: nat, compute: Compute, passes: Verdict, calls: nat)
    requires calls >= 1 && Answer(f, store, cursor, limit, true, compute, passes).1.Ok?
    ensures var (store1, r) := Answer(f, store, cursor, limit, true, compute, passes);
            Follow(f, store, cursor, limit, compute, passes, calls) ==
            if r.value.nextCursor.None? then ([r.value.items], Exhausted)
            else var rest := Follow(f, store1, r.value.nextCursor, limit, compute, passes, calls - 1);
                 ([r.value.items] + rest.0, rest.1)
  {
  }

  lemma WalkGoesOn(batches: seq<Ranking>, b: nat, from: nat, end: nat, limit: nat, v: Verdicts)
    requires Chain(batches) && b < |batches| && from <= |batches[b].ranked| && limit >= 1
    requires end == EndOf(batches[b].ranked, from, limit, Of(v, b))
    ensures var page := Passing(batches[b].ranked, from, end, Of(v, b));
            var (c, next) := Onward(batches, EndOfPage(b, end));
            if !HasCursor(batches[b], from, end) then Walk(batches, b, from, limit, v) == [page]
            else && c < |batches| && next <= |batches[c].ranked|
                 && Remaining(batches, c, next) < Remaining(batches, b, from)
                 && Walk(batches, b, from, limit, v) == [page] + Walk(batches, c, next, limit, v)
  {
  }

  /** Naming a batch by its key or by its index makes no difference to its page. */
  lemma SameVerdicts(batches: seq<Ranking>, passes: Verdict, b: nat, from: nat, limit: nat)
    requires Chain(batches) && b < |batches| && from <= |batches[b].ranked| && limit >= 1
    ensures var r := batches[b].ranked;
            var p, q := In(passes, KeyOf(batches, b)), Of(ByIndex(batches, passes), b);
            && EndOf(r, from, limit, p) == EndOf(r, from, limit, q)
            && Passing(r, from, EndOf(r, from, limit, p), p) == Passing(r, from, EndOf(r, from, limit, p), q)
  {
    var r := batches[b].ranked;
    var p, q := In(passes, KeyOf(batches, b)), Of(ByIndex(batches, passes), b);
    forall upTo | from <= upTo <= |r| ensures Passing(r, from, upTo, p) == Passing(r, from, upTo, q) {
      PassingAgrees(r, from, upTo, p, q);
    }
    assert PageEnd(r, from, EndOf(r, from, limit, p), limit, q);
    PageEndUnique(r, from, EndOf(r, from, limit, p), EndOf(r, from, limit, q), limit, q);
  }

  lemma {:induction false} PassingAgrees(r: seq<Candidate>, from: nat, upTo: nat, p: nat -> bool, q: nat -> bool)
    requires from <= upTo <= |r| && forall k: nat :: p(k) == q(k)
    ensures Passing(r, from, upTo, p) == Passing(r, from, upTo, q)
  {
    if from < upTo { PassingAgrees(r, from, upTo - 1, p, q); }
  }

  /** The items are exactly the candidates that revalidation lets pass, over all batches, each once and in order. */
  ghost predicate Received(items: seq<Candidate>, spots: seq<Spot>, batches: seq<Ranking>, passes: Verdict)
    requires Chain(batches)
  {
    && |items| == |spots|
    && (forall i :: 0 <= i < |spots| ==>
          MustShow(batches, passes, spots[i]) && items[i] == batches[spots[i].batch].ranked[spots[i].position])
    && InOrder(spots)
    && (forall p: Spot :: MustShow(batches, passes, p) ==> p in spots)
  }

  predicate MustShow(batches: seq<Ranking>, passes: Verdict, p: Spot)
    requires Chain(batches)
  {
    p.batch < |batches| && p.position < |batches[p.batch].ranked| && passes(KeyOf(batches, p.batch), p.position)
  }

  /**
   * Following `nextCursor` from a first request to the end returns every passing
   * candidate of every batch exactly once and in order, in pages within the limit.
   * No cursor is ever refused, and the walk ends, after at most one request more
   * than there are ranked positions, only when ranking and next batch are exhausted.
   */
  lemma WalkIsComplete(f: Feed, store: Store, limit: nat, compute: Compute, passes: Verdict,
                       batches: seq<Ranking>, calls: nat)
      returns (spots: seq<Spot>)
    requires Supplies(f, store, compute, batches) && 1 <= limit <= f.maxPageSize
    requires calls > Remaining(batches, 0, 0)
    ensures var (pages, ending) := Follow(f, store, None, limit, compute, passes, calls);
            && ending == Exhausted
            && Received(Flatten(pages), spots, batches, passes)
            && forall k :: 0 <= k < |pages| ==> |pages[k]| <= limit
  {
    spots := AllPassingShows(batches, 0, 0, ByIndex(batches, passes));
    forall p: Spot | MustShow(batches, passes, p) ensures p in spots {
      assert Passes(batches, 0, 0, ByIndex(batches, passes), p);
    }
    FollowIsWalk(f, store, None, limit, compute, passes, batches, Top, 0, 0, calls);
    PagesCoverBatches(batches, 0, 0, limit, ByIndex(batches, passes));
  }

  /** Which refusals a request can meet, exactly. */
  lemma RefusalsExplained(f: Feed, store: Store, cursor: Option<Cursor>, limit: int, eligible: bool,
                          compute: Compute, passes: Verdict)
    ensures var r := Answer(f, store, cursor, limit, eligible, compute, passes).1;
            && (r == Err(InvalidLimit) <==> !(1 <= limit <= f.maxPageSize))
            && (r == Err(CursorInvalid) <==> 1 <= limit <= f.maxPageSize && eligible
                                             && cursor.Some? && cursor.value.viewerId != f.viewerId)
            && (r == Err(CursorStale) <==> 1 <= limit <= f.maxPageSize && eligible && cursor.Some?
                                           && cursor.value.viewerId == f.viewerId && Outdated(f, store, cursor.value))
            && (r == Err(NotEligible) ==> !eligible || exists b :: compute(b).None?)
  {
    if cursor.Some? && cursor.value.viewerId == f.viewerId { OutdatedIsNotLive(f, store, cursor.value); }
  }

  /**
   * Another generation or filter than the request's, no stored snapshot or another
   * one than the cursor was made on, or no candidate in it with the named id and a
   * score within one rounding step of the named one.
   */
  predicate Outdated(f: Feed, store: Store, c: Cursor) {
    var key := CacheKey(f.generation, f.filterHash, c.batchKey);
    || c.generation != f.generation || c.filterHash != f.filterHash
    || key !in store || store[key].snapshotId != c.snapshotId
    || forall i :: 0 <= i < |store[key].ranked| ==>
         var d := store[key].ranked[i].score - c.lastScore;
         store[key].ranked[i].userId != c.lastCandidateId || d > 1.0 / 4503599627370496.0 || -d > 1.0 / 4503599627370496.0
  }

  lemma OutdatedIsNotLive(f: Feed, store: Store, c: Cursor)
    requires c.viewerId == f.viewerId
    ensures Outdated(f, store, c) <==> !CursorLive(f, store, c)
  {
    var key := CacheKey(f.generation, f.filterHash, c.batchKey);
    if key in store {
      var position := CursorPosition(store[key].ranked, c);
      if position.Ok? {
        assert store[key].ranked[position.value - 1].userId == c.lastCandidateId;
      }
    }
  }
}

/** The service that keeps ranking snapshots in the cache and serves pages from them. */
module MatchingFeedService {
  import opened Common
  import opened FeedPaging
  import opened FeedRequests

  /** A stored value that does not validate is treated as a miss and deleted. */
  datatype CacheEntry = Entry(ranking: Ranking) | Garbage

  class MatchingFeed {
    const viewerId: nat
    const maxPageSize: nat
    var cache: map<CacheKey, CacheEntry>

    constructor (viewerId: nat, maxPageSize: nat)
      ensures this.viewerId == viewerId && this.maxPageSize == maxPageSize && cache == map[] && Valid()
    {
      this.viewerId, this.maxPageSize, this.cache := viewerId, maxPageSize, map[];
    }

    /** The valid snapshots that the cache holds. */
    function Snapshots(): Store
      reads this
    {
      map k | k in cache && cache[k].Entry? :: cache[k].ranking
    }

    ghost predicate Valid()
      reads this
    {
      DistinctStore(Snapshots())
    }

    /** The snapshot of a batch: the stored one, else a computed one, which is then stored. */
    method Load(key: CacheKey, compute: Compute) returns (ranking: Option<Ranking>)
      requires Valid() && DistinctResults(compute)
      modifies this
      ensures Valid()
      ensures ranking == if key in old(Snapshots()) then Some(old(Snapshots())[key]) else compute(key.batchKey)
      ensures Snapshots() == if ranking.Some? then old(Snapshots())[key := ranking.value] else old(Snapshots())
    {
      if key in cache && cache[key].Entry? {
        ranking := Some(cache[key].ranking);
        assert Snapshots()[key := ranking.value] == Snapshots();
        return;
      }
      cache := cache - {key};
      assert Snapshots() == old(Snapshots());
      ranking := compute(key.batchKey);
      if ranking.Some? {
        cache := cache[key := Entry(ranking.value)];
        assert Snapshots() == old(Snapshots())[key := ranking.value];
      }
    }

    method PageRanking(ranking: Ranking, from: nat, generation: nat, filterHash: nat, batchKey: BatchKey,
                       limit: nat, passes: Verdict)
      returns (view: FeedView)
      requires DistinctIds(ranking.ranked) && from <= |ranking.ranked| && limit >= 1
      ensures view == PageOf(Feed(viewerId, maxPageSize, generation, filterHash), ranking, from, batchKey, limit, passes)
    {
      var selected, lastExamined, end := SelectPage(ranking.ranked, from, limit, In(passes, batchKey));
      PageEndUnique(ranking.ranked, from, end, EndOf(ranking.ranked, from, limit, In(passes, batchKey)), limit, In(passes, batchKey));
      var hasMore := end < |ranking.ranked| || ranking.nextBatch.Some?;
      view := FeedView(
        selected,
        if hasMore && lastExamined.Some?
        then Some(Cursor(viewerId, generation, filterHash, batchKey, ranking.snapshotId,
                         lastExamined.value.score, lastExamined.value.userId))
        else None);
    }

    /**
     * One feed request. Without a cursor it pages the root snapshot from its top.
     * With one it continues exactly after the named candidate of the very same
     * snapshot, moving to the next batch when that candidate was the last; a
     * snapshot that is gone is stale, never silently rebuilt.
     */
    method GetFeed(generation: nat, filterHash: nat, cursor: Option<Cursor>, limit: int, eligible: bool,
                   compute: Compute, passes: Verdict)
      returns (r: Result<FeedView, FeedError>)
      requires Valid() && DistinctResults(compute)
      modifies this
      ensures Valid()
      ensures (Snapshots(), r) == old(Answer(Feed(viewerId, maxPageSize, generation, filterHash), Snapshots(), cursor, limit,
                                             eligible, compute, passes))
      ensures forall k :: k in old(Snapshots()) ==> k in Snapshots() && Snapshots()[k] == old(Snapshots())[k]
      ensures forall k :: k in Snapshots() && k !in old(Snapshots()) ==> compute(k.batchKey) == Some(Snapshots()[k])
    {
      ghost var f := Feed(viewerId, maxPageSize, generation, filterHash);
      AnswerKeepsSnapshots(f, Snapshots(), cursor, limit, eligible, compute, passes);
      if limit < 1 || limit > maxPageSize { return Err(InvalidLimit); }
      if !eligible { return Err(NotEligible); }
      if cursor.None? {
        r := ServeFirstPage(generation, filterHash, Root, limit, compute, passes);
        return;
      }
      if cursor.value.viewerId != viewerId { return Err(CursorInvalid); }
      if cursor.value.generation != generation || cursor.value.filterHash != filterHash { return Err(CursorStale); }
      var key := CacheKey(generation, filterHash, cursor.value.batchKey);
      if key !in cache { return Err(CursorStale); }
      if cache[key].Garbage? {
        cache := cache - {key};
        assert Snapshots() == old(Snapshots());
        return Err(CursorStale);
      }
      var ranking := cache[key].ranking;
      assert key in Snapshots() && Snapshots()[key] == ranking;
      if cursor.value.snapshotId != ranking.snapshotId { return Err(CursorStale); }
      var found := CursorPosition(ranking.ranked, cursor.value);
      if found.Err? { return Err(CursorStale); }
      if found.value == |ranking.ranked| && ranking.nextBatch.Some? {
        r := ServeFirstPage(generation, filterHash, After(ranking.nextBatch.value), limit, compute, passes);
        return;
      }
      var view := PageRanking(ranking, found.value, generation, filterHash, cursor.value.batchKey, limit, passes);
      return Ok(view);
    }

    method ServeFirstPage(generation: nat, filterHash: nat, batchKey: BatchKey, limit: nat, compute: Compute, passes: Verdict)
      returns (r: Result<FeedView, FeedError>)
      requires Valid() && DistinctResults(compute) && limit >= 1
      modifies this
      ensures Valid()
      ensures (Snapshots(), r) == old(ServeBatch(Feed(viewerId, maxPageSize, generation, filterHash), Snapshots(), batchKey,
                                                 limit, compute, passes))
    {
      var key := CacheKey(generation, filterHash, batchKey);
      assert key in Snapshots() ==> Snapshots()[key := Snapshots()[key]] == Snapshots();
      var ranking := Load(key, compute);
      if ranking.None? { return Err(NotEligible); }
      assert DistinctIds(ranking.value.ranked);
      var view := PageRanking(ranking.value, 0, generation, filterHash, batchKey, limit, passes);
      return Ok(view);
    }
  }
}
