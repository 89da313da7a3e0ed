# Seagull backend, verified

A Dafny model of the parts of the Seagull backend whose correctness spans several functions, several processes or a whole
run, and proofs about it. `dafny verify dfyconfig.toml` checks all of it.

The model has eleven parts.

- **Rebuilding a live table** (`Rebuild`). The migrator copies a table into a reordered one, exchanges their names, waits for
  the writes under way, copies what came late and drops the old table, while writers write, parts merge and the migrator
  crashes anywhere. It is a machine over the migrator's statements; every run of it is covered. One migrator runs at a time. A
  statement in flight at a crash took effect or never will, except that an `INSERT … SELECT` may have landed any part of what
  it selected. Block numbers start at 1 and are assigned as a part becomes visible. Rows are sets, because duplicates collapse.
- **Ordered stories** (`Sequence`, `SequenceTies`). The earliest assignment of a window to the stages of a rule, the window
  itself, and the test that makes a story found once however its events arrive.
- **Hunting** (`Sql`, `SqlText`, `Hunt`, `HuntText`, `HuntParse`, `HuntMeaning`, `HuntWhere`, `HuntQuery`, `HuntCompile`,
  `Paging`). The compiler from questions to a WHERE clause is compared with an independent reading of the text it writes: a
  lexer, a parser with SQL's precedence, and an evaluator over one row and the values bound. Pages are then walked over
  whatever the compiled text selects.
- **Agents** (`Roster`, `Registry`). Registry moves, publication to a log late, out of order and more than once, the gateway
  that folds what it reads of the log, and compaction of the log while all this goes on.
- **Rollouts** (`Waves`, `Release`, `Rollout`). Accepting waves, reaching agents, whether an agent could take a release, and
  a rollout's life under operators, evaluators with stale readings and takeovers.
- **Versions** (`Version`), **update trust** (`Trust`), **session tokens and sessions** (`Token`, `Sessions`), **the name of a
  policy** (`PolicyId`), **the advisory importer** (`Importer`, `Feeds`) and **the backbone reader** (`Consumer`).

`Wrappers`, `Lexical`, `Octets`, `Sets` and `Identifiers` hold what these share.

Clocks, drawn identifiers, signatures, digests, message encodings, the broker's answers and the outcome of each publication are
parameters. Integers are unbounded except where the code's width matters: percent shares, 64-bit version numbers and the
instants of a token.

## What does not hold as promised

- A story of ordered stages is promised to be found the same number of times however its events are delivered
  (internal/analysis/sequence.go:20-26). Events of one instant keep the order they arrived in, so it is not:
  `SequenceTies.OrderFreeIffNoTiedStory` says exactly when it is.
- A question about an instant that is not a whole millisecond, and a question about a list of instants, is read otherwise than
  it was asked: the value is bound by its milliseconds, and in a list as a bare number, which an instant never equals in this
  reading of SQL. `HuntMeaning.ReadAsAskedIffExact` says
  exactly which questions are read as asked. `correlation.stages.event_time` is such a list.
- The window of a query is kept to the nanosecond (internal/hunt/query.go:211-225) and bound by its whole milliseconds
  (internal/clickhouse/hunt.go:248-250). A window from half a millisecond selects a record before it, and one up to half a
  millisecond leaves out a record inside it: `HuntQuery.HalfMillisecondWindows`. `HuntQuery.WindowReadAsAskedIffExact` says
  exactly which windows are read as asked.
- The agents topic is compacted by offset, and a record published late can be the last of its agent.
  `Registry.LatePublicationStandsLast` gives a run in which a gateway that read a revocation, started again after such a
  compaction, admits the agent. `Registry.NeverGoesBack` says exactly when what a gateway holds is never gone back on,
  whatever is published in whatever order: when the topic still tells of it wherever the gateway is started again.
  `Registry.RestartIsSafeIffLastIsNewest` says exactly when a restart is safe from every compaction.
- What is held of an advisory goes back where two feeds list it: both may take it to publish, and the older be published
  last. `Feeds.NothingGoesBackIffDisjoint` says that this is exactly when something can go back.
- A prerelease number that does not fit 64 bits is compared as text. `Version.Section11IffReadRight` says exactly when the order
  is still that of section 11 of Semantic Versioning 2.0.0.
- A partition whose listing failed is read from its committed position: `Consumer.RewindCoversTheWindow` says exactly which
  partitions go back.

## Model

| member | source | states |
|---|---|---|
| Rebuild.NothingIsLost | internal/clickhouse/rebuild.go:47-170 | At every moment of every run of writers, merges, statements and crashes, the live and displaced tables together hold exactly the rows ever written |
| Rebuild.RecordedMeansRebuilt | internal/clickhouse/migrate.go:44-70 | Once the migration is recorded the live table has the new order, holds exactly what was written, is the only table left, and is what every write under way resolved |
| Rebuild.DroppedNothingOfItsOwn | internal/clickhouse/rebuild.go:120-156 | In every run the dropped table held nothing the live one lacks |
| Rebuild.NeverRefused | internal/clickhouse/rebuild.go:57-91 | No attempt of any run meets one of the rebuild's own refusals, the one about a staging table ordered the same way included |
| Rebuild.AlwaysResumable | internal/clickhouse/migrate.go:44-81 | From wherever a run stands, however often it crashed, the writes can end and the migration can be run through to its record |
| Rebuild.RunKeeps | internal/clickhouse/rebuild.go:80-156 | Every step of a run keeps the phase invariant that says which table holds what at each statement |
| Rebuild.FinishesAlone | internal/clickhouse/rebuild.go:47-78 | An attempt left alone reaches its record |
| Sequence.Ordered | internal/analysis/sequence.go:83-95 | Succeeds exactly when some increasing assignment of the window to the stages exists, and tells the one earliest at every stage |
| Sequence.EarliestIsLeast | internal/analysis/sequence.go:80-95 | No assignment is longer than the scan's or ahead of it at any stage |
| Sequence.EarliestDecides | internal/analysis/sequence.go:80-95 | The scan fills every stage exactly when some assignment does |
| Sequence.ClockSpread | internal/analysis/sequence.go:97-108 | The spread is the largest difference between the skews of two events told |
| Sequence.Memory.Complete | internal/analysis/sequence.go:27-78 | Fires exactly when the folded window is complete with the event and was not without it, and the event is among those told |
| Sequence.CompletingEventIsTold | internal/analysis/sequence.go:60-68 | An event without which the window is incomplete is part of every assignment |
| Sequence.FiresWhenTold | internal/detectionstate/keeper.go:181-226 | Of events of distinct instants the window holds whole, an arrival fires exactly when the events so far tell the story and those before it did not |
| Sequence.FoundOnce | internal/analysis/sequence.go:17-26 | Delivered in any order and any number of times, events of distinct instants complete a story exactly once if they tell it and never otherwise |
| Sequence.SameEventsSameFires | internal/analysis/sequence.go:17-26 | Two deliveries of the same events of distinct instants find a story equally often |
| SequenceTies.FoundAtMostOnce | internal/analysis/sequence.go:17-26 | Delivered in any order and any number of times, events of one instant or not complete a story once if the window they leave is complete and never otherwise, so never twice |
| SequenceTies.OrderFreeIffNoTiedStory | internal/detectionstate/keeper.go:208-220 | For two stages or more, delivery order decides nothing exactly when no events, as many as the stages and two of one instant, fit one window |
| SequenceTies.TieDecides | internal/detectionstate/keeper.go:206-210 | Of such events one delivery finds the story and another misses it |
| SequenceTies.FewNeverFire | internal/analysis/sequence.go:83-95 | Fewer events than stages never complete a story |
| HuntMeaning.WrittenIsRead | internal/clickhouse/hunt.go:284-424 | The text of any question, parsed with SQL's precedence and given its bound values from the left, selects exactly the records that what the store answers of each field, put together as it was asked, is true of, and asks for exactly as many values as are bound |
| HuntMeaning.ExactIsReadAsMeant | internal/clickhouse/hunt.go:396-417 | Of a question whose every part is exact, what the store answers put together is what was asked |
| HuntMeaning.WrittenMeansAsked | internal/clickhouse/hunt.go:284-424 | So the text of an exact question selects exactly the records the question is true of |
| HuntMeaning.ReadAsAskedIffExact | internal/clickhouse/hunt.go:322-417 | One question is read as it was asked, of every record the schema fits, exactly when it is exact |
| HuntMeaning.AnsweredAsAskedIffExact | internal/clickhouse/hunt.go:369-417 | What the store answers of a cell is what was asked, for every cell, exactly when the question is exact |
| HuntMeaning.InexactIsAnsweredOtherwise | internal/clickhouse/hunt.go:396-417 | For every question that is not exact, a cell it is answered wrongly of |
| HuntMeaning.QuestionEvaluates | internal/clickhouse/hunt.go:317-394 | The clause of one question evaluates to what the store answers about the cell, for every operator and kind |
| HuntText.WrittenLexes | internal/clickhouse/hunt.go:284-315 | The text written for a question is cut into exactly its tokens |
| HuntParse.TermParses | internal/clickhouse/hunt.go:284-315 | Whatever comes after it, a question's tokens are parsed as its clause, so no NOT, AND or OR takes in more than it was given |
| HuntWhere.BehindTerm | internal/clickhouse/hunt.go:255-264 | The comparison of keys is read as one comparison of two tuples, numbering one placeholder for the instant and one for each name |
| HuntQuery.BehindSelects | internal/clickhouse/hunt.go:255-264 | It selects exactly the rows whose key is strictly below the position |
| HuntQuery.TenantSelects | internal/clickhouse/hunt.go:242-246 | The tenant condition selects exactly the rows of the scope's tenants, and none for an empty scope |
| HuntQuery.CompiledReads | internal/clickhouse/hunt.go:239-282 | The conditions of any compiled query select exactly the records of its tenants, inside its window as it is bound, after its position, that its question is read as true of, with as many placeholders as arguments |
| HuntQuery.CompiledSelects | internal/clickhouse/hunt.go:239-282 | Of a query whose question and window are exact, exactly the records it wants after its position |
| HuntQuery.WindowReadAsAskedIffExact | internal/clickhouse/hunt.go:248-250 | A window that ends after it starts is read as asked, of every record, exactly when both ends are whole milliseconds, or the start is not and both ends fall in one millisecond |
| HuntQuery.HalfMillisecondWindows | internal/hunt/query.go:211-225 | A record before its window that is selected, and a record inside its window that is left out |
| HuntCompile.Bind | internal/clickhouse/hunt.go:396-417 | Binds every literal, an instant by its whole milliseconds |
| HuntCompile.CarriesOf | internal/clickhouse/hunt.go:369-375 | One `has` for each value, joined by OR inside parentheses, with the values in order |
| HuntCompile.PredicateOf | internal/clickhouse/hunt.go:322-360 | Refuses exactly a field without a column, and otherwise writes what the question stands for |
| HuntCompile.Condition | internal/clickhouse/hunt.go:284-301 | Refuses exactly a question naming a field without a column, and otherwise gives its text and values |
| HuntCompile.Group | internal/clickhouse/hunt.go:303-315 | The same of a group of terms, with the values in the order of the terms |
| HuntCompile.Compile | internal/clickhouse/hunt.go:239-282 | Refuses exactly a position of another number of keys or a field without a column, and otherwise gives the conditions joined and their arguments, the ends of the window by their whole milliseconds |
| Paging.WalkIsComplete | internal/hunt/hunt.go:54-115 | Walking pages gives every row the compiled query matches after its position, each exactly once, newest first, within one page more than there are rows, even where a store answers with short pages |
| Paging.WalkGivesTheWanted | internal/hunt/hunt.go:54-115 | Of an exact query walked from the start, the rows given are exactly the rows it wants |
| Paging.WalkExists | internal/hunt/hunt.go:111-115 | For every table and positive limit a walk exists: it never gets stuck and ends |
| Paging.PageLeaves | internal/clickhouse/hunt.go:255-264 | Asking after the last row of a page leaves exactly what the page did not carry |
| Paging.KeyOrder | internal/clickhouse/hunt.go:274-277 | Two keys are equal or ordered exactly one way |
| Paging.KeyChains | internal/clickhouse/hunt.go:274-277 | The order of keys is transitive |
| Roster.Roster.Apply | internal/agent/roster.go:37-71 | The new roster, and a conflict exactly when a record decides the held revision otherwise |
| Roster.Roster.Refuse | internal/agent/roster.go:79-90 | The agent is refused at the revision held of it, and nobody else changes |
| Roster.Roster.Tenant | internal/agent/roster.go:97-105 | A tenant is given exactly for an agent held as admitted |
| Roster.ReadOne | cmd/ingest-gateway/roster.go:85-94 | A record is applied only if readable and keyed by the agent it names |
| Roster.Deliver | cmd/ingest-gateway/roster.go:61-80 | A failed record refuses its agent and the batch goes on; it ends exactly at a failed record without a key |
| Roster.FoldIsVerdict | internal/agent/roster.go:32-71 | Folding records holds exactly the agents named, each at its highest revision, with that revision's decision if its records agree and a refusal if not |
| Roster.FoldIsOrderFree | internal/agent/roster.go:32-71 | The fold depends on which records there are, and not on their order or repetition |
| Roster.ReadingIsFolding | cmd/ingest-gateway/roster.go:61-94 | The gateway's reading, refusals after conflicts included, is the fold |
| Roster.ReadingIsOrderFree | cmd/ingest-gateway/roster.go:61-94 | So what a gateway holds does not depend on order or repetition either |
| Roster.RefusedUntilHigher | internal/agent/roster.go:49-90 | However a refusal came about, no records but one of a strictly higher revision lift it |
| Registry.Apply | internal/agent/move.go:82-148 | Which moves exactly are taken; an agent at an ending takes no move; any other accepted move counts the revision up by one, keeps name and tenant, and goes where the state machine leads or from pending to active by an identity |
| Registry.RunKeeps | internal/control/admissions.go:20-35 | Every run, compactions included, keeps one decision a revision, a log of recorded decisions only, announcements that were published, the last record of every agent in the topic, and a roster that is the fold of what was read, in which no agent's last record was passed by |
| Registry.NoConflict | internal/agent/roster.go:49-63 | In every run no record of the log conflicts with what a gateway holds |
| Registry.NewestIsHeld | internal/agent/move.go:150-160 | In every run a gateway holds the registry's decision about an agent exactly when it read the agent's newest revision, which it has if it read all the topic holds of it, whatever was compacted away, where each agent's last record is its newest |
| Registry.NothingOutstandingIsAgreed | internal/postgres/agents.go:68-93 | In every run the roster holds exactly the registry's decisions about exactly its agents if and only if what was read carries every agent's newest revision; and it does with nothing outstanding, all the topic holds read and each agent's last record its newest |
| Registry.RestartHoldsIffTold | internal/agent/roster.go:32-71 | In every run a gateway started again holds an agent up to a revision exactly when the topic still holds a record of the agent of that revision or a later one |
| Registry.NeverGoesBack | internal/agent/roster.go:32-71 | In every run, with publications late, repeated and out of order, compactions and restarts, a gateway goes on holding the revision it holds of an agent or a later one exactly when the topic tells of it wherever the gateway is started again |
| Registry.NeverAdmittedAgain | internal/agent/state.go:48-59 | In every such run, after an ending was read nothing admits the agent again if the topic tells of the ending wherever the gateway is started again |
| Registry.OrderlyIsTold | internal/control/admissions.go:37-45 | Where nothing is published after a higher revision of its agent, the topic tells at every restart of what a gateway holds |
| Registry.NeverAdmittedInOrder | internal/agent/state.go:48-59 | So nothing admits an ended agent again in a run that publishes in order, nor in one that never restarts, whatever it publishes |
| Registry.Carry | internal/control/admissions.go:24-35 | Publishes before it announces, and says whether both went through |
| Registry.Sweep | internal/control/admissions.go:113-131 | Carries records in order and stops at the first failure, as that sequence of publications and announcements |
| Registry.SweepSettles | internal/control/admissions.go:113-131 | A sweep that carries everything outstanding leaves nothing outstanding |
| Registry.CompactionIsSafeIffLastIsNewest | internal/broker/topics.go:181-190 | Every compaction of a log folds to what the log folds to exactly when each agent's last record carries its highest revision |
| Registry.RestartIsSafeIffLastIsNewest | internal/broker/topics.go:181-190 | In every run, a gateway started again after any compaction holds what the whole log decides exactly when each agent's last record carries its highest revision |
| Registry.LatePublicationStandsLast | internal/control/admissions.go:37-45 | A run in which a gateway read a revocation that was announced, and after a late publication, a compaction and a restart admits the agent |
| Waves.DistinctAgents | internal/agentupdate/rollout.go:154-166 | Succeeds exactly on distinct usable identifiers, and gives their set |
| Waves.ValidateWaves | internal/agentupdate/rollout.go:100-152 | Accepts exactly the wave lists whose shares each exceed every share before, whose last opens to everybody, and whose shapes, gates and canaries are well formed |
| Waves.Reaches | internal/agentupdate/rollout.go:211-224 | An agent is reached exactly when an open wave names it or its place is below the widest open share, in 32-bit arithmetic |
| Waves.SharesFit | internal/agentupdate/rollout.go:218-223 | No share of an accepted list wraps around |
| Waves.ReachGrows | internal/agentupdate/rollout.go:210-224 | Opening a wave takes no agent back |
| Waves.LastReachesAll | internal/agentupdate/rollout.go:118-121 | The last wave reaches every agent |
| Rollout.Judge | internal/agentupdate/progress.go:31-56 | When exactly an agent counts as running, when as failed and when as ineligible, which is all the outcomes but pending |
| Release.Takes | internal/agentupdate/progress.go:58-102 | An agent that takes a release runs a version, takes updates, and finds in the catalog what it runs and a release that fits it |
| Release.TakesIffFits | internal/agentupdate/progress.go:58-102 | It takes it exactly if it runs a version, takes updates, and the first release the catalog names for its platform fits: its state kept, a downgrade named as a replacement, an upgrade not from below the minimum |
| Rollout.WavesOnlyOpen | internal/agentupdate/rollout.go:284-314 | In every run the wave stays in range and never goes back, and an ended rollout stands as it ended |
| Rollout.PlatformOpensSoundly | internal/agentupdate/progress.go:142-171 | In every run from an accepted rollout, a wave the platform opens was opened while active, next in turn, after the full soak, with fewer unacknowledged failures than pause it and as many running as asked, by the failures acknowledged as they stand |
| Rollout.PauseThenResume | internal/agentupdate/rollout.go:281-296 | A pause and a resumption give back the standing there was, with the failures last read taken as known |
| Rollout.AbortEnds | internal/agentupdate/rollout.go:305-309 | An abort ends a rollout for good, in every run after it |
| Rollout.KnownFailuresDoNotPause | internal/postgres/rollouts.go:178-188 | Once resumed, over every run in which nobody pauses or ends it and the failures read are of agents last read as failing or known before, a rollout stays active, whenever its readings were taken |
| Rollout.ResumedReadingSettles | internal/postgres/rollouts.go:329-360 | Such a reading taken after the resumption does settle, by the gate of the wave that is open, and names nobody as failing |
| Rollout.OvertakenSettlesNothing | internal/postgres/rollouts.go:329-360 | A reading overtaken by any change settles nothing |
| Rollout.OfferOnlyWithdrawnByPauseOrEnd | internal/agentupdate/rollout.go:226-237 | In every run a release once offered to an agent is offered whenever the rollout is active |
| Rollout.Tally.Count | internal/agentupdate/progress.go:111-128 | Which counter moves, and when the agent joins the failing list |
| Rollout.Reports | internal/control/rollouts.go:372-382 | The reports read do not depend on how the reads were chunked |
| Rollout.Evaluate | internal/control/rollouts.go:347-386 | The counts and the failing list of a reading are those of its agents' buckets, whatever the chunk size |
| Rollout.ReadingPartitions | internal/control/rollouts.go:357-386 | Reached is pinned, running, failed, acknowledged, ineligible and pending added up |
| Rollout.FailingIsExact | internal/agentupdate/progress.go:104-128 | The failing list names, once each, exactly the reached agents that failed, are not pinned and are not acknowledged |
| Version.ParseVersion | internal/agentupdate/version.go:17-46 | The loops read what the lemmas below are about |
| Version.ParsesIffWritten | internal/agentupdate/version.go:17-46 | A text is read exactly when it has at most 128 characters and writes out a version of 64-bit numbers and well-formed identifiers, with or without well-formed build metadata |
| Version.ParsedIsWritten | internal/agentupdate/version.go:8-46 | The version read, written out, is the text up to its build metadata |
| Version.WrittenIsParsed | internal/agentupdate/version.go:17-46 | Every version of 64-bit numbers and well-formed identifiers is read back from its text, whatever its build metadata |
| Version.Identifiers | internal/agentupdate/version.go:104-114 | Accepts exactly lists of well-formed identifiers |
| Version.Compare | internal/agentupdate/version.go:50-70 | The loop computes the order the lemmas below are about |
| Version.CompareIsTotal | internal/agentupdate/version.go:50-94 | Any two versions are ordered, antisymmetrically |
| Version.CompareChains | internal/agentupdate/version.go:50-94 | The order is transitive |
| Version.EqualIffSameButBuild | internal/agentupdate/version.go:10-46 | Two parsed versions compare equal exactly when their texts agree up to the build metadata |
| Version.Section11IffReadRight | internal/agentupdate/version.go:72-102 | The order is section 11's exactly when the versions differ before their prereleases or the identifiers these first differ at are not misread |
| Version.Section11WhereNumbersFit | internal/agentupdate/version.go:72-102 | It is section 11's wherever every prerelease number fits 64 bits |
| Version.LongNumbersAreMisread | internal/agentupdate/version.go:96-102 | A family of numbers put in the wrong order |
| Version.TwoTextsAreMisread | internal/agentupdate/version.go:96-102 | Two texts that carry such numbers, are both read, and are put in the wrong order |
| Trust.OpenedReads | internal/agentpolicy/policy.go:111-121 | The signed bytes can be read back to the type and the payload |
| Trust.PAEIsInjective | internal/agentpolicy/policy.go:108-121 | No two types and payloads are signed as the same bytes |
| Trust.KindsAreApart | internal/agentupdate/update.go:31-33 | A policy, a root and a catalog are never signed as the same bytes |
| Trust.SignedBy | internal/agentupdate/update.go:73-108 | The keys counted are exactly the role's keys that made one of the signatures, each once, and fewer than the threshold is a refusal |
| Trust.VouchedIsOrderFree | internal/agentupdate/update.go:73-108 | Who vouched does not depend on order or repetition of signatures or keys |
| Trust.PublicKeys | internal/agentupdate/root.go:152-176 | Succeeds exactly on keys named by their own digests, none twice, and gives a map of exactly their names, each to its decoded key |
| Trust.Walk | internal/agentupdate/root.go:105-119 | The loop walks one root after another and stops at the first refusal |
| Trust.WalkIsAChain | internal/agentupdate/root.go:72-119 | A walk over n envelopes ends n versions on, and every link carries a threshold of distinct root keys of the root before and of the root itself |
| Trust.WalkInTwoParts | internal/agentupdate/root.go:103-119 | Walking a concatenation is walking in two parts |
| Trust.AnchorIsSound | internal/agentupdate/root.go:44-70 | An anchor is well formed and signed by a threshold of its own root keys |
| Token.Within | internal/authz/session.go:88-102 | A lifetime is never above the process's, and never below the floor where the process gives that much |
| Token.PayloadReads | internal/authz/session.go:129-185 | A session's payload is read back as that session, instants before the epoch included |
| Token.TokenVerifies | internal/authz/session.go:127-185 | A token is its session again exactly until it expires and exactly with its certificate, and otherwise which error it is |
| Token.PayloadIsInjective | internal/authz/session.go:174-185 | Two sessions never share a payload |
| Sessions.Store.RevokeLocked | internal/control/sessions.go:142-156 | Ends one session, keeps every list exactly the live sessions of its subject, and counts it |
| Sessions.Store.Revoke | internal/control/sessions.go:125-129 | The same, keeping the ceilings |
| Sessions.Store.RevokeSubject | internal/control/sessions.go:131-140 | Ends exactly a subject's sessions and counts them |
| Sessions.Store.SweepLocked | internal/control/sessions.go:164-172 | Leaves exactly the unexpired, in their order |
| Sessions.Store.Sweep | internal/control/sessions.go:158-162 | The same, keeping the ceilings |
| Sessions.Store.Open | internal/control/sessions.go:76-104 | Opens in place of the subject's oldest where it holds as many as it may; refused for capacity exactly when it would evict nobody and the process is full, and then nobody was evicted |
| Sessions.Store.Verify | internal/control/sessions.go:109-123 | A token opened here is honoured exactly while its session is live and unexpired and presented with its certificate |
| PolicyId.Compile | internal/authz/policy.go:88-123 | Succeeds exactly on named, distinct, declared roles and bindings and at least one binding, and holds exactly those |
| PolicyId.PreimageReads | internal/authz/policy.go:164-197 | The bytes hashed can be decoded back to the roles and bindings |
| PolicyId.PreimageIsInjective | internal/authz/policy.go:164-197 | Two compiled policies written alike, in whatever order, are one policy |
| Importer.Follower.Keep | internal/advisoryfeed/importer.go:211-223 | Keeps an advisory unless a later version is held, so nothing held goes back |
| Importer.RecalledIsNewest | internal/advisoryfeed/importer.go:157-223 | Whatever order the log is read back in, what is held of each advisory is a version of the newest time among those that are sound, of a feed followed and not from the future, under the feed that version came from |
| Importer.Follower.Owed | internal/advisoryfeed/importer.go:307-322 | The listings neither settled nor held as new under these rules |
| Importer.OrderIsNothing | internal/advisoryfeed/importer.go:332-424 | What a feed's outcomes leave, settled one after another, does not depend on the order they come in |
| Importer.StepsNeverGoBack | internal/advisoryfeed/importer.go:338-424 | No sequence of one feed's outcomes takes a held advisory back |
| Importer.CompleteOwesOnlyOlder | internal/advisoryfeed/importer.go:242-322 | After outcomes that answer all a feed owed, a listing is owed exactly when it was owed and its record was older than it claimed |
| Importer.Latest | internal/advisoryfeed/importer.go:585-598 | One listing for each advisory, the newest |
| Importer.Follower.PublishBatch | internal/advisoryfeed/importer.go:497-522 | Holds every advisory of a batch and settles those as new as listed |
| Importer.Follower.Read | internal/advisoryfeed/importer.go:338-424 | One feed's read: settling as fetches complete and publishing in batches leaves what settling and publishing each outcome at once would, unless the log refuses a batch; and nothing held goes back even then |
| Feeds.RunKeeps | internal/advisoryfeed/importer.go:140-155 | Over every interleaving of the syncs of feeds that list different advisories, refused batches included, nothing held goes back and each feed stands, of its own advisories, where its own outcomes leave it but for its batch |
| Feeds.NothingGoesBackIffDisjoint | internal/advisoryfeed/importer.go:479-522 | Nothing held ever goes back, in any interleaving, exactly when no advisory is listed by two feeds |
| Feeds.EachFeedAlone | internal/advisoryfeed/importer.go:338-424 | Over every interleaving, what a sync leaves of its feed's advisories is what its own outcomes, one after another with no other feed there, would leave |
| Feeds.CompleteSyncOwesOnlyOlder | internal/advisoryfeed/importer.go:242-322 | Over every interleaving, after a complete sync of a feed a listing is owed exactly when it was owed as the sync began and its record was older than it claimed |
| Feeds.InterleavingIsNothing | internal/advisoryfeed/importer.go:332-424 | Two runs in which a feed's sync began with the same of an advisory and its fetches came to the same, in whatever order and whatever other feeds did, leave the same of it |
| Consumer.Rewind | internal/broker/recovery.go:45-115 | The loops compute the rewind the lemmas below are about, refusals included |
| Consumer.RewindNeverGoesForward | internal/broker/recovery.go:45-115 | No partition is moved forward, added or left out, whatever the broker answers |
| Consumer.RewindCoversTheWindow | internal/broker/recovery.go:22-115 | Given true answers a partition goes back exactly when its last committed record is held and its listing was answered, and then reads again every record held within the window |
| Consumer.CommittedIsDelivered | internal/broker/consumer.go:176-236 | In every run of any number of readers, with joint polls, deliveries and commits over partitions, commits accepted in part, crashes and rewinds, every record of every partition below its committed position was delivered, but for what the topic dropped first |
| Consumer.OneUnknownStartStopsAll | internal/broker/recovery.go:33-68 | One partition whose start is not said refuses the whole assignment, and in every run until it is started again no poll of the reader begins: only a poll that already waited returns, once, and nothing else is taken of any partition |
| Consumer.RefusedReturnsOnce | internal/broker/consumer.go:189-197 | The same of any refusal, however it came about |

## Left out

- HTTP handlers, TLS, metrics, logging, configuration and process wiring: nothing in them spans more than one function.
- The Kafka, ClickHouse and PostgreSQL clients: a log with offsets and instants, tables with parts and rows, and rows compared and written at once stand for them.
- Signatures, digests, X.509, protobuf and base64: functions given from outside. Injectivity is proved of what is hashed or signed, never of a digest.
- Field validators, row projections, the alert lifecycle, the schema tokenizer and other migrations' statements: many branches, each settled by reading it.
- The migrator as one method: its statements are the steps of a machine, because it can crash between any two of them. The ledger is one flag, for the one migration that rebuilds.
- The keeper's admission of new keys under its capacity, and its watermarks.
- The SELECT list, the table, FINAL, ORDER BY and LIMIT of a hunt as text: a page is the newest of what the WHERE clause selects. Cursors are positions; their encoding and fingerprint are not modelled.
- HuntMeaning.WrittenMeansAsked: numbers are reals, so a number that a float cannot name and is not whole is taken as exact.
- Registry.Apply: a stored agent is in a state this build knows, and whether an identity may be bound is given with it.
- Registry.CompactionIsSafeIffLastIsNewest: is about logs of recorded decisions, which every run's log is.
- Waves.ValidateWaves: which refusal is given first is not stated, only that one is.
- Release.Takes: protobuf messages are records of the fields read; one that is absent is read as its empty fields.
- Trust.SignedBy: the keys are given as a set, where the code lists them sorted.
- Token.TokenVerifies: instants are whole milliseconds, to which the code truncates them.
- Sessions.Store.Open: the identifier is drawn outside and is not the identifier of a live session.
- PolicyId.PreimageIsInjective: the parts are shorter than 2^64 bytes, as their lengths are written in 64 bits.
- Importer.Follower.Read: is of one feed with nobody else writing; that other feeds make no difference is `Feeds.EachFeedAlone`. The fetching goroutines are the order the outcomes come in.
- Feeds.RunKeeps: the context is not cancelled, and when a batch is published is left open, where the code does it as the batch is full and at the end.
- Importer.Latest: the order of the listings it keeps is not stated; nothing read from them depends on it.
- Consumer.CommittedIsDelivered: which reader holds which partition is left open, so two may hold one; how many records a poll takes is too.
- Registry.RunKeeps: a gateway started again has read all the topic holds before it serves, and one gateway stands for each.
