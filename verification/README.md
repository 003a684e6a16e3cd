# Verified model of the TripWith backend core

This project states, in Dafny, what the hard parts of the TripWith API do and
proves that they keep their promises. It covers seven parts:

- **Explorer clustering** (`ExplorerGrid.dfy`): the grid scale for a viewport, the
  counting sweep behind it, and the SQL grouping on the same grid.
- **Events** (`EventRules.dfy`, `EventLaws.dfy`, `EventOutcomes.dfy`, `EventStore.dfy`,
  `EventDetail.dfy`):
  drafts, publication, join requests, approval, capacity overrides, leaving,
  removal, seats, the event chat room, and the detail page.
- **Transactional outbox** (`Outbox.dfy`): enqueue, leases, backoff, dead letters,
  the consumer and its acknowledgement, with any number of relays.
- **Chat log** (`ChatLog.dfy`): the append under the room lock, sync and history paging.
- **Matching feed** (`FeedGeneration.dfy`, `FeedPaging.dfy`): generation tokens over an
  unreliable Redis whose writes may land late or again, and requests that follow
  cursors over immutable snapshots.
- **Two lock protocols** (`SwipeProtocol.dfy`, `ConsentProtocol.dfy`): mutual swipes,
  and consent against discovery, under READ COMMITTED.
- **Calendar dates** (`CalendarDates.dfy`): string order, day numbers and stay overlap.

`Common.dfy` holds the types and set facts that the parts share.

## How it is modelled

A concurrent protocol is a state machine. Its steps are the database statements
or Redis commands of one transaction or request (take a lock, read committed
state, buffer a write, commit), and a run is any interleaving of such steps. The
main results are about every run.

Code that changes stored rows in place is a class (`EventStore.EventRecord`,
`OutboxStore.Outbox`, `MatchingFeedService.MatchingFeed`), and loops of the source
are methods with loops. `EventRecord` keeps what the database keeps: the seat
counter moved by triggers, the status column, the chat members. `EventRules` keeps
none of it: seats are a sum over active parties and FULL means that the sum has
reached the capacity. Every method of `EventRecord` is proved to answer and to
change the event as `EventRules` says, and `EventOutcomes` spells out over the stored
fields whom the rules let in and what each command answers, so the counters, the FULL/ACTIVE flag and
the chat membership agree with the derived facts after every command.

Clocks, accounts, database verdicts and Redis outcomes are parameters. Each place
where the code reads the clock is a reading of its own, in no particular order.

## Results that differ from the documentation

- The echo consumer's comment promises an effect at most once however often its job
  runs. That holds exactly while `failed_at`, a column the consumer never reads, is
  empty: a dead-lettered row refuses its acknowledgement (the table's terminal-state
  constraint), so every delivery of its job repeats the effect.
  `RedeliveryRepeatsExactlyDeadLetters` proves both directions for every reachable
  state, and `DeadLetterRepeatsEffect` is such a run.
- A successful bump does not make every older ranking unreachable: the cache
  connection repeats commands over reconnects, so a write of the generation key can
  take effect after a newer one and bring an old token back. `LateWritesBreakThePromise`
  gives the exact condition and `RepeatedWriteServesStale` the run; in runs without such
  a write the promise is `NeverServesPreBumpRanking`.
- String order and day-number order of dates do not agree for all four-digit years:
  `Date.UTC` (section 21.4.3.4 of ECMA-262) moves the years 0 to 99 into the 1900s.
  `OrdersAgreeExactly` is the exact condition over all valid dates, on which the range
  and segment results rest, and `EarlyYearsDisagree` an instance. Month lengths are
  those of section 5.7 of RFC 3339.
- The detail page hides a managed PUBLIC event that has started or ended as if it
  were missing, while the join command answers that it cannot be joined; this is
  the only such difference (`HiddenEventsCannotBeJoined`).

## Model

| member | source | states |
|---|---|---|
| EventStore.EventRecord.CreateJoinRequest | apps/api/src/events/join-requests.service.ts:99-193 | Creation has exactly the effect and answer of the rules, commits the expiry of an overdue request even when refused, leaves the chat alone when refused, and keeps the seat counter, the FULL/ACTIVE flag and the chat members, former ones included, equal to the derived facts. |
| EventStore.EventRecord.ApproveJoinRequest | apps/api/src/events/join-requests.service.ts:415-458 | Ordinary approval refines the rules; it never touches the capacity and keeps counters, status and chat in agreement. |
| EventStore.EventRecord.ApproveWithCapacityOverride | apps/api/src/events/join-requests.service.ts:469-539 | Override approval refines the rules; the capacity is raised before the seats are taken, so the stored counter never exceeds it. |
| EventStore.EventRecord.ApproveAndParticipate | apps/api/src/events/join-requests.service.ts:548-588 | One approval writes the request, the membership row, its seats, both chat members and the FULL flag, and nothing else. |
| EventStore.EventRecord.CancelParticipation | apps/api/src/events/join-requests.service.ts:329-400 | Leave and remove cancel the newest row, free its seats, deactivate its chat member and reopen a full event; an already cancelled row is returned untouched. |
| EventStore.EventRecord.CheckDecision | apps/api/src/events/join-requests.service.ts:418-439 | The shared gates answer in the order of the service, with both expiry checks, and write only an expiry. |
| EventStore.EventRecord.CancelJoinRequest | apps/api/src/events/join-requests.service.ts:223-244 | Withdrawal by the requester only, refining the rules. |
| EventStore.EventRecord.RejectJoinRequest | apps/api/src/events/join-requests.service.ts:415-457 | Rejection by the manager only, refining the rules. |
| EventStore.EventRecord.Leave | apps/api/src/events/join-requests.service.ts:264-274 | Self-leave inside its window, refining the rules. |
| EventStore.EventRecord.Remove | apps/api/src/events/join-requests.service.ts:284-294 | Removal by the manager inside its window, refining the rules. |
| EventStore.EventRecord.CreateEvent | apps/api/src/events/events.service.ts:70-137 | A draft is stored exactly when the field checks, the capacity, the host party and the category lookup pass, in that order, with the seat counter seeded to the host party. |
| EventStore.EventRecord.UpdateEvent | apps/api/src/events/events.service.ts:150-247 | Only the manager's own draft changes, only after the category lookup and the checks of the merged fields, and the trigger's delta keeps the seat counter equal to the host party. |
| EventStore.EventRecord.PublishEvent | apps/api/src/events/events.service.ts:249-286 | Publication refuses a foreign event, a non-draft, a missing or inactive category, an incomplete configuration and a past start, and lands in FULL exactly when the host party fills the capacity, else in ACTIVE. |
| EventStore.EventRecord.CancelEvent | apps/api/src/events/events.service.ts:288-304 | Cancellation follows the transition table, records its time and touches nothing else. |
| EventStore.EventRecord.ProgressEvent | packages/shared/src/enums.ts:53-66 | Start and completion move the stored status along the table only and leave counters and chat in agreement. |
| EventStore.ChatAfterAdmission | apps/api/src/chat/chat.repository.ts:248-255 | After an approval the active chat members are again exactly the manager and the active participants, and the rows those of everyone who ever took part. |
| EventStore.ChatAfterDeparture | apps/api/src/chat/chat.repository.ts:266-273 | After a departure the active chat members are again exactly the manager and the active participants, and the leaver keeps an inactive row. |
| EventLaws.RunKeepsInv | apps/api/src/events/join-requests.service.ts:99-588 | The full invariant (seats, ledger, one pending request, one active row, rows matching approvals) holds in every state of every run of commands. |
| EventLaws.RunFollowsTable | packages/shared/src/enums.ts:53-66 | Every command of every run leaves the status alone or moves it along one transition of the table. |
| EventLaws.ReachableStatesAreSound | apps/api/src/events/join-requests.service.ts:329-400 | From any draft: reserved seats never exceed the capacity nor the capacity 10,000; capacity is the published one plus all overrides; one pending request per user; the active row is its user's newest and carries the party of its approved request. |
| EventLaws.RunExtends | apps/api/src/events/join-requests.service.ts:714-726 | Over every run nothing is deleted, a request that is no longer PENDING and a cancelled membership row never change again, and a published capacity never shrinks. |
| EventLaws.RefusalOnlyExpires | apps/api/src/events/join-requests.service.ts:728-737 | A refused command leaves the event unchanged except for at most one overdue request that became EXPIRED. |
| EventLaws.RefusalsOnlyExpire | apps/api/src/events/join-requests.service.ts:136-150 | Any sequence of refused commands together can only have expired overdue PENDING requests. |
| EventLaws.AdmissionEffect | apps/api/src/events/join-requests.service.ts:548-588 | Approval makes the requester a member, charges exactly the party's seats and affects no other membership. |
| EventLaws.CreationEffect | apps/api/src/events/join-requests.service.ts:156-191 | A new request records the capacity it met, is approved on the spot exactly when approval is automatic and the party fits, and never raises the capacity. |
| EventLaws.OverrideExactlyWhenNeeded | apps/api/src/events/join-requests.service.ts:500-538 | An override is recorded exactly when the party did not fit; it then raises the capacity to exactly the reserved seats and the event is FULL. |
| EventLaws.OverrideAgainstApproval | apps/api/src/events/join-requests.service.ts:500-517 | The override agrees with ordinary approval wherever that does not ask for it, and otherwise fails only at the limit of 10,000. |
| EventLaws.LeaveIsIdempotent | apps/api/src/events/join-requests.service.ts:337-356 | A retry of leave, or a removal after it, changes nothing and returns the first departure's data. |
| EventLaws.EndFreesTheParty | apps/api/src/events/join-requests.service.ts:358-391 | Ending a membership frees exactly that party's seats and no other membership changes. |
| EventLaws.ActiveRowIsNewest | apps/api/src/events/join-requests.service.ts:347-351 | Ordering by insertion picks the active row whenever there is one. |
| EventLaws.RejoinAfterLeaving | apps/api/src/events/join-requests.service.ts:123-131 | A historical approval never blocks a new request: a leaver can ask again exactly when the event is PUBLIC. |
| EventOutcomes.JoinOutcome | apps/api/src/events/join-requests.service.ts:99-160 | The exact answer to a request to join for every event, account, party and clock, over the stored fields, with the order of its refusals. |
| EventOutcomes.OnlyUsableAccountsJoin | apps/api/src/events/join-requests.service.ts:590-613 | Only an available, unsuspended and trusted account that does not manage the event gets in; the account is called unavailable exactly when it is gone or under a suspension that has begun, was not lifted and has not ended. |
| EventOutcomes.RequestLastsADay | apps/api/src/events/join-requests.service.ts:165-177 | A request is stored with the moment it was made and 24 hours to live; an automatic approval stores the membership row and no decider. |
| EventOutcomes.ApprovalOutcome | apps/api/src/events/join-requests.service.ts:415-539 | The exact answers of ordinary and of overriding approval over the stored fields; they differ only for a party that does not fit, and the override only fails beyond 10,000. |
| EventOutcomes.OnlyUsableAccountsAreApproved | apps/api/src/events/join-requests.service.ts:590-613 | Either approval succeeds only for the manager, for a request not overdue at both readings, and for a requester with a usable account. |
| EventOutcomes.ApprovalStores | apps/api/src/events/join-requests.service.ts:548-588 | An approval stores the decision with its time and decider and the membership row of the party; no other request changes. |
| EventOutcomes.WithdrawalOutcome | apps/api/src/events/join-requests.service.ts:223-244 | Only the requester withdraws, only a request that is pending and not overdue, and it then ends WITHDRAWN with its time. |
| EventOutcomes.RejectionOutcome | apps/api/src/events/join-requests.service.ts:415-457 | Only the manager rejects, only a request that is pending and not overdue, and it then ends REJECTED with its time and decider. |
| EventOutcomes.ExpiredIsStored | apps/api/src/events/join-requests.service.ts:728-737 | Whoever is told that a request has expired finds it stored as EXPIRED. |
| EventOutcomes.LeaveOutcome | apps/api/src/events/join-requests.service.ts:264-274 | Leaving is refused to the host and outside the window; otherwise the newest row ends with time, actor and reason, or returns its first departure. |
| EventOutcomes.RemoveOutcome | apps/api/src/events/join-requests.service.ts:284-294 | Removal is the manager's alone, never of the manager, and inside the window; the newest row ends with time, actor and reason. |
| EventOutcomes.DraftOutcome | apps/api/src/events/events.service.ts:70-137 | Exactly which drafts are stored, with which fields, and that they are sound drafts with the host party seated. |
| EventOutcomes.UpdateOutcome | apps/api/src/events/events.service.ts:150-247 | Exactly when a draft changes and to what; a refusal changes nothing. |
| EventOutcomes.PublishOutcome | apps/api/src/events/events.service.ts:249-286 | Exactly when an event is published, and that it is FULL exactly when the host party fills it. |
| EventOutcomes.CancellationOutcome | apps/api/src/events/events.service.ts:288-304 | Only the manager cancels, and every event that is neither finished nor cancelled; the time is stored. |
| EventOutcomes.ProgressOutcome | packages/shared/src/enums.ts:53-66 | An open event may start and a started one may end; no other progress is possible. |
| EventDetail.ButtonMatchesCommand | apps/api/src/events/event-detail.service.ts:91-149 | For every admitted viewer with a usable account the join button is offered exactly when creation succeeds at that instant, and a stated reason is creation's error. |
| EventDetail.HiddenEventsCannotBeJoined | apps/api/src/events/event-detail.service.ts:43-64 | Whoever may not open the page cannot join, and when the join command reveals that the event exists. |
| EventDetail.LatestIsThePendingOne | apps/api/src/events/event-detail.service.ts:174-179 | The page's newest request and the command's PENDING request are the same one. |
| EventDetail.MembershipShown | apps/api/src/events/event-detail.service.ts:119-149 | Party size and chat room are shown exactly to active participants and the manager, with the size of the active row. |
| EventDetail.WhoMayOpenThePage | apps/api/src/events/event-detail.service.ts:43-64 | Exactly who may open the page, over the stored fields. |
| EventDetail.PageActions | apps/api/src/events/event-detail.service.ts:91-149 | Managers manage, members open the chat, waiting requesters wait, and the join action appears exactly with the join button. |
| EventDetail.ShownRequest | apps/api/src/events/event-detail.service.ts:121-127 | The request shown is the newest one, an overdue one as EXPIRED, with one seat for the viewer and one per guest. |
| ExplorerGrid.ExplorerClusterScale | apps/api/src/explorer/explorer.repository.ts:513-519 | For every extent, viewport or radius, the doubling loop ends with the least power of two whose grid fits the limit, and every larger power fits too. |
| ExplorerGrid.ExtentCellCount | apps/api/src/explorer/explorer.repository.ts:561-580 | The count is the number of grid cells that the extent meets, split antimeridian ranges included. |
| ExplorerGrid.TouchedCellsHoldPoints | apps/api/src/explorer/explorer.repository.ts:561-595 | The counted cells are exactly the buckets that some point of the extent falls into. |
| ExplorerGrid.CellHoldsCoordinate | apps/api/src/explorer/explorer.repository.ts:582-595 | The index of a coordinate is that of the cell whose bounds enclose it; the end of an axis belongs to its last cell. |
| ExplorerGrid.CellSize | apps/api/src/explorer/explorer.repository.ts:513-515 | The base cell is 90 degrees at zoom 0, halves with each zoom level and grows in proportion to the scale. |
| ExplorerGrid.SweepSorted | apps/api/src/explorer/explorer.repository.ts:566-578 | The sort-and-merge sweep returns the size of the union of the ranges. |
| ExplorerGrid.IndexHalves | apps/api/src/explorer/explorer.repository.ts:582-595 | Doubling the cell halves the clamped index exactly. |
| ExplorerGrid.DoublingCoarsens | apps/api/src/explorer/explorer.repository.ts:561-595 | The cells met at twice the size are exactly the halved cells. |
| ExplorerGrid.FitsUpward | apps/api/src/explorer/explorer.repository.ts:513-519 | Once a scale fits, every larger power of two fits. |
| ExplorerGrid.BucketIsCell | apps/api/src/explorer/explorer.repository.ts:105-130 | The SQL bucket expression and the TypeScript cell index agree on every coordinate. |
| ExplorerGrid.ClustersFitCells | apps/api/src/explorer/explorer.repository.ts:105-130 | Points inside the extent fall into at most the counted number of buckets. |
| ExplorerGrid.ClustersConserveEvents | apps/api/src/explorer/explorer.repository.ts:147-165 | The cluster counts add up to the number of events. |
| ExplorerGrid.ClusterCounts | apps/api/src/explorer/explorer.repository.ts:147-165 | Every bucket with an event has a cluster, and the count of each cluster is the number of events in its bucket. |
| ExplorerGrid.FindDiscoverableMarkers | apps/api/src/explorer/explorer.repository.ts:346-381 | For every extent: which of pins, clusters or too-broad is answered, the exact count of each cluster on the grid of the least fitting scale, and that the final LIMIT never drops a row. |
| ExplorerGrid.ViewportExtent | apps/api/src/explorer/explorer.repository.ts:527-537 | A point satisfies the viewport predicate exactly when the extent contains it. |
| ExplorerGrid.RadiusExtentContains | apps/api/src/explorer/explorer.repository.ts:540-558 | The extent of a radius search is valid and contains every point within its spans, across the antimeridian and at the poles. |
| ExplorerGrid.RadiusExtentIsTight | apps/api/src/explorer/explorer.repository.ts:540-558 | The extent of a radius search holds only points within its spans. |
| ExplorerGrid.NormalizedQueriesAreUsable | apps/api/src/explorer/explorer-query.ts:26-145 | Every accepted query of either form meets the grid's needs: a valid extent or a usable circle, a zoom level and a limit in range. |
| ExplorerGrid.AcceptedViewports | apps/api/src/explorer/explorer-query.ts:26-72 | Exactly which viewports are accepted, antimeridian and full turns included, and that the accepted one is the given one. |
| ExplorerGrid.AcceptedRadii | apps/api/src/explorer/explorer-query.ts:74-97 | Exactly which circles are accepted, and that the accepted one is the given one. |
| ExplorerGrid.AcceptedQueries | apps/api/src/explorer/explorer-query.ts:112-135 | A query is accepted exactly with one complete form and its zoom and limit in range; the limit defaults to 100. |
| ConsentProtocol.DiscoveryAlwaysConsented | apps/api/src/settings/settings.service.ts:106-132 | In every interleaving, whatever the database clock reads, committed discovery implies for Terms and Privacy an event that grants the current version and has no newer event of its type. |
| ConsentProtocol.LatestAfterAppend | apps/api/src/consent/consent.service.ts:105-121 | An append becomes the latest event of its own type when it is newer than all of them, changes nothing when one of them is newer, and never touches another type; id tie-break included. |
| ConsentProtocol.LatestIsLastAppended | apps/api/src/consent/consent.service.ts:58-121 | While the clock does not go back, the event that counts is the one recorded last, in every interleaving. |
| ConsentProtocol.LogIsWhatCommitted | apps/api/src/consent/consent.service.ts:58-103 | In every interleaving the log is the initial one plus exactly one row, with its kind, grant and version, per committed record command, and none for any other. |
| ConsentProtocol.WithdrawalBlocksEnabling | apps/api/src/consent/consent.service.ts:89-98 | A committed withdrawal is in the log, and once it is the newest of its type no enabling commits before a later grant of that consent at the current version. |
| ConsentProtocol.DiscoveryFollowsCommits | apps/api/src/settings/settings.service.ts:106-132 | A committed settings change sets discovery to its value, a committed withdrawal switches it off, and no other commit touches it. |
| ConsentProtocol.OnlyCommitsChangeDiscovery | apps/api/src/consent/consent.service.ts:89-98 | No step but a commit changes discovery. |
| ConsentProtocol.AloneItCommits | apps/api/src/settings/settings.service.ts:266-301 | Undisturbed, a record commits exactly at the current version, an enabling exactly when both consents stand, any other change exactly when there are settings. |
| ConsentProtocol.NoDeadlockCycle | apps/api/src/settings/settings.service.ts:266-301 | No reachable state has a cycle of transactions waiting for each other's locks. |
| ConsentProtocol.NoDeadlock | apps/api/src/consent/consent.service.ts:58-103 | While any transaction is unfinished, some transaction can really move. |
| SwipeProtocol.MatchExactlyOnMutualLike | apps/api/src/swipes/swipes.repository.ts:56-95 | In every interleaving a match exists exactly for the pairs that like each other. |
| SwipeProtocol.OneRoomPerMatch | apps/api/src/swipes/swipes.repository.ts:216-281 | Every match has one room of its own with exactly its two users, and no other room exists. |
| SwipeProtocol.CommittedRowsStay | apps/api/src/swipes/swipes.repository.ts:189-214 | A committed swipe never changes and a committed match keeps its room. |
| SwipeProtocol.CommittedCallsAreStored | apps/api/src/swipes/swipes.repository.ts:56-95 | In every interleaving the swipe of each committed call, like or pass, is stored as given, every stored swipe is that of a committed call, and a call told a match was told its pair's room. |
| SwipeProtocol.ToldExactlyOnMutualLike | apps/api/src/swipes/swipes.repository.ts:74-92 | A call is told a match exactly when its own like and the reciprocal one are stored at its commit. |
| SwipeProtocol.AloneItCommits | apps/api/src/swipes/swipes.repository.ts:189-214 | Undisturbed, a call commits exactly when it is about another user and makes or repeats the swipe. |
| SwipeProtocol.WithoutLockMutualLikeIsMissed | apps/api/src/swipes/swipes.repository.ts:61-64 | Without the pair lock two mutual likes can commit without a match: the lock is needed. |
| ChatLog.SequenceIsGapless | apps/api/src/chat/chat.repository.ts:425-440 | In every interleaving the committed sequence numbers are exactly 1 to last_seq. |
| ChatLog.RetriesReturnTheSameMessage | apps/api/src/chat/chat.repository.ts:83-104 | All committed sends of one key return one message, and at most one reports it as created. |
| ChatLog.SomeSendCreated | apps/api/src/chat/chat.repository.ts:410-423 | For every committed send the message is in the log under its sender and key, and some send of that key created it, with that send's body. |
| ChatLog.CommittedSendersWereMembers | apps/api/src/chat/chat.repository.ts:83-104 | Every committed send has a moment, under the room's lock, at which its check ran and its sender was an active member. |
| ChatLog.AloneItSends | apps/api/src/chat/chat.repository.ts:83-104 | Undisturbed, a stranger's send is refused, a repeated one returns the stored message, and any other appends one message with the next number, its sender, key and text. |
| ChatLog.PageIsCut | apps/api/src/chat/chat.repository.ts:442-451 | A page is the first `limit` visible messages with an exact `hasMore`; a non-member gets room-not-found. |
| ChatLog.SyncWalkIsComplete | apps/api/src/chat/chat.repository.ts:308-328 | An active member's repeated sync over a growing room receives, in order and once each, everything visible; the walk runs through the membership-checked endpoint and its sentinel row. |
| ChatLog.SyncWalkEnds | apps/api/src/chat/chat.repository.ts:308-328 | With more calls than there are visible messages some page is the last one. |
| ChatLog.SyncMissesNothing | apps/api/src/chat/chat.repository.ts:308-328 | For every run of sends between the calls: the received messages are ascending and visible, a finished walk has all of them, and enough calls finish it. |
| ChatLog.HistoryWalkIsComplete | apps/api/src/chat/chat.repository.ts:284-304 | An active member paging back receives exactly the history visible at the first call, newest first, whatever is sent meanwhile, and enough calls finish it. |
| ChatLog.HistoryMissesNothing | apps/api/src/chat/chat.repository.ts:284-304 | For every run of sends between the calls: older messages of the first moment only, newest first and once each, in the end all of them, and enough calls finish it. |
| OutboxProtocol.AttemptsAddUp | apps/api/src/outbox/outbox-relay.service.ts:269-316 | publish_attempts is the minimum of attempts and max_attempts, and a row is dead-lettered exactly when attempts exceed max_attempts. |
| OutboxProtocol.ClaimsAreSpaced | apps/api/src/outbox/outbox-relay.service.ts:269-316 | Any two claims of one row, by whatever relays, are more than one lease apart. |
| OutboxProtocol.ClaimsWaitTheirTurn | apps/api/src/outbox/outbox-relay.service.ts:269-316 | No row is claimed before the moment it was enqueued for, nor before the backoff of any recorded failure is over, whatever happens in between. |
| OutboxProtocol.UnfinishedIsClaimableAgain | apps/api/src/outbox/outbox-relay.service.ts:236-256 | An unfinished row can be claimed again, and its attempt then counts, once its lease and the longest backoff are over. |
| OutboxProtocol.LostJobIsPublishedAgain | apps/api/src/outbox/outbox-relay.service.ts:191-229 | When the queue loses everything, the next claim of an unfinished row with attempts left brings its job back. |
| OutboxProtocol.RowsContinue | apps/api/src/outbox/outbox-enqueuer.service.ts:54-75 | A key keeps its first payload, and a completed or dead-lettered row never changes again. |
| OutboxProtocol.EffectCount | apps/api/src/outbox/infra-echo.processor.ts:32-54 | In every reachable state: one effect once completed, at most one without a dead letter, and before completion one per refused acknowledgement. |
| OutboxProtocol.RedeliveryRepeatsExactlyDeadLetters | apps/api/src/outbox/infra-echo.processor.ts:32-54 | For every reachable state with a queued job and any number of deliveries: the effect ends at exactly one if failed_at is empty, and grows by one per delivery if it is set. |
| OutboxProtocol.DeadLetterRepeatsEffect | apps/api/src/database/migrations/sql/1787184000000-InitialSchema.up.sql:1745-1747 | A concrete run that reaches such a dead letter and applies the effect twice. |
| OutboxProtocol.RetryDelayValue | apps/api/src/outbox/outbox-relay.service.ts:231-234 | The backoff starts at one lease, never decreases and is bounded by 32 leases and the timer limit. |
| OutboxProtocol.UnusableIds | apps/api/src/queue/job-id.ts:31-48 | Exactly which job ids are refused: empty ones, those with a colon, and bare integers. |
| OutboxStore.Outbox.Enqueue | apps/api/src/outbox/outbox-enqueuer.service.ts:54-75 | First write wins, with every column of the new row; exactly a missing transaction, an unusable id and a limit below one are refused, the last even for an existing key. |
| OutboxStore.Outbox.ClaimBatch | apps/api/src/outbox/outbox-relay.service.ts:269-316 | A claim changes exactly the selected rows, by one protocol step, and returns them as updated. |
| OutboxStore.Outbox.RunTick | apps/api/src/outbox/outbox-relay.service.ts:191-229 | Each claimed row ends as published with its job queued, as published with its next attempt pushed out, or as dead-lettered and neither; no other row changes and the queue gains nothing else. |
| OutboxStore.StepsOfPass | apps/api/src/outbox/outbox-relay.service.ts:191-229 | After its claim a pass performs one Publish for each published row, one RecordFailure for each recorded failure, and nothing else. |
| OutboxStore.PassHandlesOnce | apps/api/src/outbox/outbox-relay.service.ts:191-229 | No row is handled twice in a pass. |
| OutboxStore.DeliverAllIsRun | apps/api/src/outbox/outbox-relay.service.ts:191-229 | What a pass does after its claim is the run of exactly those steps, so the protocol's results cover the loop. |
| OutboxStore.Outbox.RecordPublishFailure | apps/api/src/outbox/outbox-relay.service.ts:236-256 | An unfinished row waits at least its backoff, a finished one and every other row are left alone. |
| OutboxStore.Outbox.Acknowledge | apps/api/src/outbox/outbox-acknowledger.service.ts:26-45 | completed_at is set once; a dead-lettered row refuses. |
| OutboxStore.Outbox.Process | apps/api/src/outbox/infra-echo.processor.ts:32-54 | The consumer applies its effect exactly once unless the row is completed, then acknowledges; which acknowledgements complete the row and which are refused. |
| FeedGeneration.NeverServesPreBumpRanking | apps/api/src/matching/feed-generation.service.ts:19-59 | A request that starts after a successful bump never serves a ranking whose database reads began before it, under key loss, corruption, failed commands, lost answers and harmless repetitions: in every run without a late write. |
| FeedGeneration.LateWritesBreakThePromise | apps/api/src/redis/redis-connection.factory.ts:54-63 | The exact condition: a generation write that takes effect makes a stale answer possible if and only if a ranking from before an invalidation in effect exists or can still appear under its token. |
| FeedGeneration.PromptRunsAreTimely | apps/api/src/redis/cache.service.ts:50-78 | If every write takes effect at most once, and not after its own request went on without it, no write is late. |
| FeedGeneration.RepeatedWriteServesStale | apps/api/src/redis/redis-connection.factory.ts:54-63 | The failing run: a write sent again after a reconnect brings back an old token, and a later request serves the ranking from before the newest bump. |
| FeedGeneration.RunKeepsInv | apps/api/src/matching/matching.service.ts:70-119 | In every run without a late write, the stored token and every request's token lead to no ranking from before the invalidations that count for them. |
| FeedGeneration.RacingRequestsAgree | apps/api/src/matching/feed-generation.service.ts:19-42 | However many requests race for a viewer without a stored generation, without faults they all use one token, the stored one. |
| FeedGeneration.RequestSettlesToken | apps/api/src/matching/feed-generation.service.ts:19-42 | A request on its own keeps a stored token, claims a missing one and replaces a corrupt one, and then holds the stored token. |
| FeedGeneration.BumpTakesEffect | apps/api/src/matching/feed-generation.service.ts:44-49 | An invalidation that reaches Redis replaces whatever is stored by a token under which nothing is cached. |
| FeedGeneration.NextBatchUsesTheToken | apps/api/src/matching/matching.service.ts:121-160 | After an exhausted batch a request goes on under its token and serves what is cached for the next one. |
| FeedPaging.SelectPage | apps/api/src/matching/matching.service.ts:273-343 | The loop returns the candidates at exactly the passing positions between its start and its end, each once and in order, and stops at the limit or the end of the ranking. |
| FeedPaging.PassingPicks | apps/api/src/matching/matching.service.ts:284-299 | The passing candidates of a stretch are those at a strictly increasing row of positions that is exactly the set of positions that pass. |
| FeedPaging.CursorPosition | apps/api/src/matching/matching.service.ts:399-410 | The position after the named candidate, and stale exactly when no candidate matches. |
| FeedPaging.CursorRoundTrip | apps/api/src/matching/matching.service.ts:399-410 | A cursor made at a position leads back to that position. |
| FeedPaging.PageEndUnique | apps/api/src/matching/matching.service.ts:284-306 | Start, limit and verdicts determine the page. |
| FeedPaging.PagesCoverBatches | apps/api/src/matching/matching.service.ts:273-343 | The pages from any position on, batch after batch, are the passing candidates from there, and stop only when all is exhausted. |
| FeedRequests.WalkIsComplete | apps/api/src/matching/matching.service.ts:121-160 | Requests that follow each returned nextCursor receive the candidate at every passing position of every batch, each once and in order, in pages within the limit; no cursor is refused and enough requests end the walk. |
| FeedRequests.CursorResumes | apps/api/src/matching/matching.service.ts:121-160 | A returned cursor resolves, in the store that the request left behind, to exactly the position where its page ended. |
| FeedRequests.AnswerKeepsSnapshots | apps/api/src/matching/matching.service.ts:52-180 | A request changes no snapshot, stores only what was computed for the key, and stores nothing when it is refused. |
| FeedRequests.RefusalsExplained | apps/api/src/matching/matching.service.ts:81-118 | Exactly when a request is refused for its limit, as an invalid cursor, or as stale: another generation, filter or snapshot than the stored one, or no candidate of that id and score. |
| MatchingFeedService.MatchingFeed.GetFeed | apps/api/src/matching/matching.service.ts:52-180 | The service answers and stores exactly as the request specification says, garbage entries included; old snapshots stay and new ones are what was computed. |
| CalendarDates.StringOrderIsDayOrder | apps/api/src/trips/trip-validation.ts:19-36 | String order is day-number order from year 100 on, and among the years before. |
| CalendarDates.OrdersAgreeExactly | packages/shared/src/dates.ts:33-43 | The exact condition for agreement over all valid dates. |
| CalendarDates.EarlyYearsDisagree | packages/shared/src/dates.ts:33-43 | Two dates on which the orders disagree. |
| CalendarDates.DayNumberAdvances | packages/shared/src/dates.ts:33-43 | The next calendar day has the next day number, over month ends, leap days and years, for every valid date except the last of year 99. |
| CalendarDates.NextDayIsValid | apps/api/src/trips/trip-validation.ts:19-29 | The valid dates are 1 January of year 1 and every following calendar day within four digits. |
| CalendarDates.OverlapIsIntersection | packages/shared/src/dates.ts:67-73 | The overlap is the number of days the two stays share. |
| CalendarDates.OverlapMatchesHalfOpen | packages/shared/src/dates.ts:59-73 | The overlap equals the half-open range formula of the database. |
| CalendarDates.StayLengthCountsDays | packages/shared/src/dates.ts:55-58 | The inclusive length is the number of days of the stay. |
| CalendarDates.DaysAreThoseBetween | packages/shared/src/dates.ts:45-58 | Exactly which ranges are refused, and that an accepted one covers all day numbers between its ends. |
| CalendarDates.NormalizedOverlapRange | packages/shared/src/dates.ts:88-92 | The score is the number of shared days over the number of days of the shorter stay; it lies in [0, 1], is 1 exactly when one stay contains the other, and 0 exactly when they share no day. |
| CalendarDates.ValidRangesAreOrdered | apps/api/src/trips/trip-validation.ts:31-36 | For all valid dates: the string check and the day-number check agree on a range exactly when the orders agree on its ends. |
| CalendarDates.SegmentContainedMeansSubset | apps/api/src/trips/trip-validation.ts:38-44 | Wherever the two orders agree, a segment is accepted exactly when all of its days are days of the trip. |

## Left out

- IEEE floating point: degrees, scores and overlaps are mathematical reals.
- The trigonometry that turns a radius into degrees, PostGIS predicates and SQL text building; the degree spans of a radius extent are parameters.
- The lock protocols, the chat log and the generation tokens are state machines on values: update in place and aliasing are not captured there.
- Advisory locks are one lock per key; two keys that hash to the same lock, which only wait more, are not modelled.
- Cursor encryption and encoding, cache-key hashing, candidate scoring and the internals of ranking generation.
- Snapshots are assumed to stay cached during a cursor walk; the revalidation query is a verdict per position.
- Soft deletion of messages is fixed while a reader pages; read state, broadcast targets and presence.
- Redis operators who put an old valid token back by hand.
- A consumer that crashes between effect and acknowledgement, and overlapping consumer runs of one key.
- The outbox's timers and its last-error text.
- Payments and deposits beyond the refusal of paid joining, capacityMin, the status history table and request messages.
- One manager per event is fixed; a change of provider ownership is not modelled.
- Requests and membership rows are in insertion order, which stands for strictly increasing requested_at and joined_at.
- Rows older than the capacity snapshot, whose snapshot columns are empty, and the read-only list views.
- Which actor starts and completes an event: no service does, so both are steps of the environment.
- Texts, money, times, categories and meeting points themselves: whether they pass their checks is a parameter of the commands; other settings fields only abort.
- OutboxStore.Outbox.ClaimBatch: which claimable rows, and in which order, is the database's choice under SKIP LOCKED and is an input here; last_error is not a column.
- OutboxStore.Outbox.RunTick: takes the same selection as an input and does not clear last_error.
- FeedGeneration.NeverServesPreBumpRanking: stated for runs without late writes, because with one the promise fails; LateWritesBreakThePromise is the exact condition.
- CalendarDates.StringOrderIsDayOrder: stated for two dates on the same side of year 100, because day numbers move the earlier years; OrdersAgreeExactly covers all pairs.
- CalendarDates.SegmentContainedMeansSubset: stated where the orders agree on the compared dates, because elsewhere the string check accepts ranges whose days are not in order.
