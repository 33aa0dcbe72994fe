# PSYSMON, verified

PSYSMON is a dependency-aware monitoring daemon: it reads a configuration, checks hosts on a schedule, masks hosts
whose path to the monitor is broken, and pages a contact when a host goes down or comes back. This project models the
parts of it that decide what is checked, what is believed and who is paged, and proves what they keep over every input
and every run.

| part | modules |
|---|---|
| up/down state machine (`psysmon/engine/state.py`) | `StateMachine` |
| scheduler (`psysmon/engine/scheduler.py`) | `Flatten`, `Gates`, `Records`, `Scheduling` (the steps), `Scheduler` (the object), `SchedulerInvariant`, `Suppression`, `Timing`, `Cadence`, `Paging`, `Announcing`, `PagingReload`, `PagingRestart`, `Persistence`, `Eligibility`, `Deployment` |
| DNS cache (`psysmon/engine/dnscache.py`) | `DnsCache` |
| ICMP (`psysmon/checks/ping.py`) | `Icmp`, `PingDemux` |
| modern format (`psysmon/config/modern.py`) | `Text`, `Lexer`, `ModernSyntax`, `ModernWriting`, `ModernBuild`, `ModernMeaning`, `Groups`, `GroupFiles`, `Forest`, `Modern` |
| legacy format (`psysmon/config/legacy.py`) | `Legacy`, `LegacyGlobals`, `LegacyScan`, `LegacyStanzas`, `LegacyWriting` |
| converter (`psysmon/config/convert.py`) | `Convert`, `Emission`, `Reparse`, `NodeTrip`, `RoundTrip`, `GlobalsTrip`, `Regrow`, `ForestTrip`, `LegacyTrip` |

`Model` holds the shared data types, `Lists` and `Graphs` the facts about lists without repeats and finite directed graphs.

How the model is built:

- The scheduler is a class whose fields are the source's (`_heap`, `_scheduled`, the task set, the per-node state). Every
  stretch of code between two awaits is one method. Each method's contract says that it performs one step of the relation
  `Scheduling.Next`. The theorems are about all sequences of steps, that is about every interleaving of ticks,
  completions, send returns, exceptions, acknowledgements, notes, imports and reloads.
- A node object is a position in a sequence that only grows; a reload retires positions and adds new ones. A queue entry
  records when it was pushed, which the source does not store; only the timing theorems read that field.
- Time is `real` and does not go back. The check runner and the notifier may answer anything.
- The DNS cache and the ping service are classes of the same kind, each with a step relation for its callers.
- Parsers, tokenizer, linker and serializer are loops over their own position or stack. Each is proved against a
  function or relation that does not mention the loop.
- Float formatting and IP address syntax are parameters (`ModernBuild.Lib`). The only assumption made about them,
  `LegacyTrip.LibOk`, is that a positive finite float survives being written and read back as a bareword.

What the code does that its documentation does not say, or says differently:

- The converter promises a round trip. It fails exactly for nodes with a quote character in a field, a tcp/udp port
  above 65535, a threshold below 1 that is not the default, or more required replies than probes
  (`NodeTrip.NodeRoundTrip`). The first three are announced by a warning, the last is silent (`NodeTrip.LostSilently`,
  with an example in `LegacyTrip.InvertedPairIsLost`).
- The tokenizer does not terminate on a text with an odd whitespace character (form feed, no-break space, ...) outside
  strings and comments (`Lexer.HangsExactlyOnOddSpace`, `Lexer.StuckLoopsForever`).
- A reload while a DOWN page is being delivered, the first of an outage or a repeated one, loses the answer, and the
  host is paged again within the page interval (`PagingReload.ReloadDuringSendPagesTwice`, with runs from the start in
  `PagingReload.FirstPageTwice` and `PagingReload.RepeatedPageTwice`). A reload keeps the paging discipline iff it hands
  over no host about which a DOWN page is on its way (`Paging.ReloadKeepsPagingIff`).
- An import is not checked against the state machine: a well-typed record of a host that was contacted while up breaks
  the paging discipline (`PagingRestart.ContactedWhileUpBreaks`). Records that the daemon saved itself never do
  (`PagingRestart.RestartIsCalm`).
- The counter of echo keys does not look at what is pending: a probe that draws a pending key takes it over, and that is
  the only step that cuts off another probe (`PingDemux.NextKeepsInv`).
- The converter drops the control settings of a legacy file although the modern format has directives for them
  (`GlobalsTrip.GlobalsRoundTrip`, `LegacyTrip.ControlIsLost`).
- A check that runs out of time while another one looks its host up has called the DNS cache, but is neither a hit nor a
  miss (`DnsCache.GivenUpCallIsNotCounted`).
- A result that does not count (resolver failure, informational DEGRADED) still ends a run of identical errors
  (`StateMachine.HistoryDeterminesState`).
- The loop does not wake early for an entry queued while it sleeps (`Timing.SleepIsNotShortened`).
- Import restores only the last node of a repeated key, reload all of them (`Persistence.ReloadAgreesWithRestart`).
- A `dns` object that gets its contact only from its group is dropped, although writing the contact on the object would
  keep it (`Groups.FailureIsNotInherited`).

## Model

| member | source | states |
|---|---|---|
| StateMachine.NodeState.ApplyResult | psysmon/engine/state.py:51-107 | the in-place branch-by-branch update gives exactly the state, intent and change flag of the case-by-kind definition `Apply` |
| StateMachine.HistoryDeterminesState | psysmon/engine/state.py:51-107 | after any history of results, marks, clock restarts and acknowledgements the whole state is read off it: `lastcheck` is the last result; `downct` the length of the trailing run of the last result that counts; `deathtime` the time of the last failure, `lastUp` of the last recovery; contacted, or acknowledged, iff marked, or acknowledged, and not come up since |
| StateMachine.IntentAfterHistory | psysmon/engine/state.py:82-104 | DOWN is asked for iff the trailing run of a failure that counts has reached the threshold and the host was not marked since it came up; RECOVERY iff a host marked since then comes up; the display changes iff the result differs from the last or is a failure that counts |
| StateMachine.RunDated | psysmon/engine/state.py:94-104 | during a failure that counts, `deathtime` is when its trailing run began |
| StateMachine.FlappingCodesNeverPage | psysmon/engine/state.py:99-104 | with a threshold of 2 or more, a history in which no two consecutive results agree never pages |
| Flatten.FlattenGraph | psysmon/engine/scheduler.py:230-282 | schedules exactly the nodes with a ping-only path from a root, each once; gates are exactly the scheduled ping parents, without repeats; dropped nodes are exactly the unscheduled children of scheduled non-pings |
| Flatten.WantedMeans | psysmon/engine/scheduler.py:230-282 | a node has a ping-only path iff it is a root or a child of a ping or ping6 that has one |
| Gates.Reachable | psysmon/engine/scheduler.py:325-350 | the stack search ends on every gate graph, cyclic or not, and answers true iff a chain of checked-and-reachable parents leads to a root |
| Gates.SearchIsAnyParentRule | psysmon/engine/scheduler.py:310-350 | on gates without cycles, a live chain exists iff the recursive any-parent rule says so |
| Gates.AllUpAllReachable | psysmon/engine/scheduler.py:325-350 | with every gating parent up, every node of an acyclic gate graph is reachable |
| Eligibility.DagGatesRanked | psysmon/engine/scheduler.py:230-282 | in every state of every run from an acyclic configuration, through any reloads of acyclic ones, the gates have a rank, hence no cycle |
| Eligibility.AllPingsUpAllEligible | psysmon/engine/scheduler.py:310-350 | in every state of every such run: with every current ping checked and up or degraded, every current node is eligible |
| Eligibility.MaskedByParents | psysmon/engine/scheduler.py:310-350 | a host without parents is always eligible; one behind parents is not while each is unchecked or neither up nor degraded |
| Deployment.ModernPlansAreDags | psysmon/config/modern.py:886-924 | the plan of every file in the modern format comes from an acyclic graph, whatever deps the file declares |
| Deployment.ConfiguredHostsEligible | psysmon/engine/scheduler.py:310-350 | in every state of every run that starts from a modern file and reloads modern files: with every current ping checked and up or degraded, every current node is eligible |
| Deployment.Launch | psysmon/engine/scheduler.py:165-211 | parser and scheduler composed: a scheduler is built iff the file parses, and it is in the initial state for the plan of that file |
| Scheduler.Scheduler.constructor | psysmon/engine/scheduler.py:165-211 | flattens any configuration into a plan and starts, staggered or not, in the initial state of the step machine, with the invariant |
| Scheduler.Scheduler.Head | psysmon/engine/scheduler.py:354-368 | finds a queue entry with the earliest due time, or none iff the queue is empty |
| Scheduler.Scheduler.NextDelay | psysmon/engine/scheduler.py:403-412 | the sleep is the time to the head of the queue, never negative, or the bounded poll when nothing waits |
| Scheduler.Scheduler.PopEntry | psysmon/engine/scheduler.py:356-368 | one due entry leaves the queue; its node is dispatched iff it has a live path, else suppressed and queued again |
| Scheduler.Scheduler.Tick | psysmon/engine/scheduler.py:354-368 | ends; whatever order entries leave the queue in, dispatches exactly the due nodes with a live path and requeues exactly the other due ones one interval ahead; keeps the invariant |
| Scheduler.Scheduler.FinishCheck | psysmon/engine/scheduler.py:486-489 | the end of a check task: a live node is queued again, a retired one is not |
| Scheduler.Scheduler.CheckDone | psysmon/engine/scheduler.py:446-522 | a completion performs the completion step: discarded for a retired or masked node, else applied, and a page starts iff paging asks for one |
| Scheduler.Scheduler.SendDone | psysmon/engine/scheduler.py:491-522 | the return of a send performs the send step and ends the task |
| Scheduler.Scheduler.TaskRaised | psysmon/engine/scheduler.py:446-489 | a check or send that raises still ends its task and requeues its node |
| Scheduler.Scheduler.Match | psysmon/engine/scheduler.py:537-544 | lists, without repeats, exactly the current nodes with the key |
| Scheduler.Scheduler.Ack | psysmon/engine/scheduler.py:546-555 | acknowledges exactly the current nodes with the key and returns their number |
| Scheduler.Scheduler.SetNote | psysmon/engine/scheduler.py:557-565 | sets the truncated note on exactly the current nodes with the key and returns their number |
| Scheduler.Scheduler.ImportState | psysmon/engine/scheduler.py:600-644 | the record loop restores each record that validates into the node it keys, nothing else |
| Scheduler.Scheduler.Reload | psysmon/engine/scheduler.py:646-700 | swaps in a new plan while checks are in flight: carried state by key, old nodes retired, fresh queue; keeps the invariant |
| SchedulerInvariant.NextKeepsInv | psysmon/engine/scheduler.py:291-306 | every step keeps the invariant that ties nodes, queue, in-flight flags and tasks together |
| SchedulerInvariant.RunKeepsInv | psysmon/engine/scheduler.py:354-700 | so does every run |
| SchedulerInvariant.NoHostLostOrDoubled | psysmon/engine/scheduler.py:291-306 | in every state of every run from any configuration, a current node is queued exactly once and has no task, or is off the queue with exactly one; a retired node is never queued |
| Suppression.ResultsNeedLivePath | psysmon/engine/scheduler.py:466-479 | a step that changes a node's result fields is the completion of its own check at an instant when it is alive and has a live path, or the import of a record that lands on it; only the completion counts as a check |
| Suppression.FlagFollowsPath | psysmon/engine/scheduler.py:354-479 | the suppressed flag is set by a turn or a completion without a live path, cleared by a result that counts, and otherwise left alone |
| Suppression.PagesNeedLivePath | psysmon/engine/scheduler.py:466-522 | a page starts only in such a completion |
| Suppression.MaskedHostsStayFrozen | psysmon/engine/scheduler.py:354-368 | over any run in which no import restores the node, while it has no live path or is retired its result fields do not change, even if the path broke during its check |
| Timing.NextBounded | psysmon/engine/scheduler.py:284-306 | every step keeps each entry due within the largest interval of its push |
| Timing.RunBounded | psysmon/engine/scheduler.py:284-306 | so in every state of every run from the start, staggered or not, through any reloads |
| Timing.SleepIsBounded | psysmon/engine/scheduler.py:370-412 | at any point of any run from the start: the loop never sleeps past max(now, d) for an entry waiting when it dozes off, nor past s + Imax for one pushed at s meanwhile |
| Timing.TickLeavesNothingDue | psysmon/engine/scheduler.py:354-381 | after a tick nothing queued is due, so the loop does not spin |
| Timing.IdleLoopPolls | psysmon/engine/scheduler.py:403-412 | with nothing waiting the loop sleeps for the shorter of one default interval and a second |
| Timing.SleepIsNotShortened | psysmon/engine/scheduler.py:374-412 | a concrete run in which an entry becomes due half a second before the loop wakes |
| Cadence.TurnsAreSpaced | psysmon/engine/scheduler.py:284-368 | in every run from the start: after a turn of a host, a tick gives it the next iff it is waiting then and its own interval (else the default, at least 0.01 s) has passed since that turn |
| Cadence.FirstTurn | psysmon/engine/scheduler.py:284-306 | its first turn comes once its slot has: the start is spread evenly over one default interval, or all at once |
| Announcing.CompletionAnnounces | psysmon/engine/scheduler.py:446-522 | what a completed check of a live host starts, from the state before it and the contact's choice alone: RECOVERY iff a contacted host comes up and the choice is up or both; a first DOWN iff an outage begins, unacknowledged, and the choice is down or both; a repeated DOWN iff the interval is over, likewise; a silent mark iff an outage begins that is acknowledged or whose choice is up; what becomes of contacted, acked and the page clock; without a page the check ends and the host is queued again |
| Announcing.AnswerMarks | psysmon/engine/scheduler.py:503-519 | a delivered first page marks the host, a delivered DOWN page restarts its clock, an undelivered one changes nothing, and no other host changes |
| Announcing.RecoveryClears | psysmon/engine/state.py:86-96 | a host that comes up by a result is no longer acknowledged or contacted |
| Announcing.HostIsItsHistory | psysmon/engine/scheduler.py:446-565 | in every run from the start, through reloads and imports that do not restore the host, its whole state is read off the results, marks, clock restarts and acknowledgements of the run |
| Paging.PagingDiscipline | psysmon/engine/scheduler.py:491-522 | over every run in which each reload and each import meets the condition of the next two rows: contacted implies not up; marks minus recoveries is 1 if contacted else 0; DOWN pages of an outage are more than the page interval apart, and at most one if the interval is 0 or less; pages on their way were asked for by the host's current node |
| Paging.ReloadKeepsPagingIff | psysmon/engine/scheduler.py:646-700 | a reload keeps the discipline iff it hands over no host about which a DOWN page is on its way |
| Paging.ImportKeepsPagingIff | psysmon/engine/scheduler.py:600-644 | an import keeps the discipline iff no record that takes effect says contacted while up, says up for a host whose first page is on its way, or says not contacted for one whose repeated page is |
| Paging.StartKeepsDiscipline | psysmon/engine/scheduler.py:165-211 | the discipline holds where a run starts: nothing on its way, no host contacted while up |
| Paging.PagingFromStart | psysmon/engine/scheduler.py:165-211 | every such run from the initial state of any configuration keeps the discipline |
| Paging.NoDownPageWhileAcked | psysmon/engine/scheduler.py:491-522 | by host key, across reloads and imports that keep the acknowledgement: until a node with the key comes up, no DOWN page about the key starts and the acknowledgement stays |
| Paging.AckAcksKey | psysmon/engine/scheduler.py:546-555 | an acknowledgement makes its key acknowledged |
| Paging.ReloadKeepsAckIff | psysmon/engine/scheduler.py:646-700 | a reload keeps a key acknowledged iff the key is not planned or was monitored before, that is it is lost exactly by dropping a host and bringing it back |
| Paging.ImportKeepsAckIff | psysmon/engine/scheduler.py:600-644 | an import keeps a key acknowledged iff no record that takes effect on it says otherwise |
| PagingReload.AnswerLandsIffNotReloaded | psysmon/engine/scheduler.py:491-522 | the answer to a page of any kind takes effect on the current node of its key iff the node that sent it is still alive |
| PagingReload.MarkLandsIffNotReloaded | psysmon/engine/scheduler.py:503-505 | a delivered first page marks the current node of that key exactly then |
| PagingReload.StampLandsIffNotReloaded | psysmon/engine/scheduler.py:516-519 | a delivered repeated page restarts the current node's clock exactly then |
| PagingReload.ReloadDuringSendPagesTwice | psysmon/engine/scheduler.py:646-700 | for every state with a DOWN page on its way, first or repeated, about a host that one more failure would page again: a run of four steps - reload, delivery, tick, completion - in which the same outage of the same key starts the same page again |
| PagingReload.FirstPageTwice | psysmon/engine/scheduler.py:491-522 | such a run from the start of a one-host configuration: two first pages one second apart, page interval 100 |
| PagingReload.RepeatedPageTwice | psysmon/engine/scheduler.py:491-522 | the same with the repeated page |
| PagingRestart.ContactedWhileUpBreaks | psysmon/engine/scheduler.py:600-644 | a record that validates and says contacted while up does not fit, and importing it breaks the discipline under every history |
| PagingRestart.RestartIsCalm | psysmon/engine/scheduler.py:579-644 | importing into a fresh scheduler of any configuration what any disciplined run had saved meets the condition |
| Records.ExportValidates | psysmon/engine/scheduler.py:116-137 | an exported record passes validation with every carried field intact and is keyed by its own node only |
| Persistence.RunKeepsNotes | psysmon/engine/scheduler.py:557-565 | in every state of every run from the start, notes are short enough to be exported and validated |
| Persistence.ExportsValidate | psysmon/engine/scheduler.py:579-598 | every record exported at any point of any run passes validation with every carried field intact and is keyed by its own node only |
| Persistence.ImportOfExport | psysmon/engine/scheduler.py:579-638 | importing the first `i` exported records leaves each node with the carried fields of the last of them that bears its key |
| Persistence.ReloadAgreesWithRestart | psysmon/engine/scheduler.py:646-700 | at any point of any run from the start, for any plan: reload, and building afresh then importing the export, give a node the same carried fields iff it is the last of its key, or nothing was known, or what was known is a fresh state; thresholds come from the new plan, only the re-page clock differs |
| Persistence.UniqueKeyIsLast | psysmon/engine/scheduler.py:618-620 | a node whose key is unique is the last of its key |
| Persistence.HeirKeepsState | psysmon/engine/scheduler.py:646-700 | a host still configured after a reload keeps every carried field and whether it was checked; its threshold is the new one |
| Persistence.NewHostStartsFresh | psysmon/engine/scheduler.py:646-700 | one that was not configured starts up, unmarked and unchecked |
| Persistence.ImportRestores | psysmon/engine/scheduler.py:600-638 | an import puts the fields of the last record that lands on a host into it and restarts its page clock, and touches nothing else |
| Persistence.RecordValidatesIff | psysmon/engine/scheduler.py:86-137 | a record validates iff every carried field is there and of its type, and then gives exactly those values, the note cut to 1024 characters |
| Persistence.NoteIsText | psysmon/engine/scheduler.py:557-565 | a note is the first 1024 characters of its text, none for no text or an empty one, on exactly the current nodes with the key |
| Persistence.StaleTasksTouchNothing | psysmon/engine/scheduler.py:446-489 | completions, send returns and exceptions of checks begun before a reload change no node and no queue entry of the new set |
| DnsCache.Cache.Look | psysmon/engine/dnscache.py:75-79 | the first look counts a hit and answers iff the entry is younger than the TTL |
| DnsCache.Cache.LookLocked | psysmon/engine/dnscache.py:82-93 | the second look answers from the cache or starts a lookup and counts a miss, evicting and counting a stale entry |
| DnsCache.Cache.LookupDone | psysmon/engine/dnscache.py:93-95 | only a successful lookup is stored, stamped with the time it came back |
| DnsCache.CacheIsSound | psysmon/engine/dnscache.py:60-95 | over every interleaving, callers that run out of time included: at most one lookup per key; every entry cached was brought by a lookup of that key; every answer served came from a lookup of that key and was younger than the TTL; misses equal lookups started; successes equal expirations plus entries; calls equal hits plus misses plus callers waiting plus calls given up while waiting |
| DnsCache.FreshEntriesAreServed | psysmon/engine/dnscache.py:75-93 | a call is answered from the cache iff an entry for its key is younger than the TTL, and then starts no lookup; otherwise it waits, and under the lock looks up |
| DnsCache.LookupIsCached | psysmon/engine/dnscache.py:93-95 | an address that a lookup brings is cached under its key and time; a failure leaves the cache alone |
| DnsCache.GivenUpCallIsNotCounted | psysmon/engine/dnscache.py:75-81 | a run of two callers in which hits, misses and waiting callers do not add up to the calls |
| Icmp.FoldCarries | psysmon/checks/ping.py:82-93 | the carry loop ends and gives the one's-complement remainder of the sum |
| Icmp.IcmpChecksum | psysmon/checks/ping.py:82-93 | both loops together give the RFC 1071 checksum, defined without either loop |
| Icmp.RequestChecksumIsZero | psysmon/checks/ping.py:96-103 | for every identifier, sequence and payload the checksum over the built request is 0 |
| Icmp.ParsesExactlyReplies | psysmon/checks/ping.py:106-126 | the parser accepts exactly the packets that are an IPv4 header followed by an echo reply (RFC 792), with exactly its fields |
| Icmp.EchoRoundTrip | psysmon/checks/ping.py:96-126 | the reply to a built request behind any legal IPv4 header parses to the 16-bit identifier and sequence and the same payload |
| Icmp.EchoRoundTrip6 | psysmon/checks/ping.py:129-159 | the same for ICMPv6 (section 4 of RFC 4443), and a request is never taken for a reply |
| PingDemux.KeysDoNotRepeat | psysmon/checks/ping.py:349-355 | keys drawn fewer than 2^32 calls apart differ |
| PingDemux.PingService.NextKey | psysmon/checks/ping.py:349-355 | draws the key of the counter and advances it modulo 2^32 |
| PingDemux.PingService.Expect | psysmon/checks/ping.py:448-452 | registers a fresh future and nonce under the next key |
| PingDemux.PingService.OnReadable | psysmon/checks/ping.py:359-387 | a packet resolves the future of its own key iff it echoes that probe's nonce, and changes nothing else |
| PingDemux.NextKeepsInv | psysmon/checks/ping.py:349-520 | a step of the demultiplexer and its checks keeps the invariant iff the key it draws, if any, is not pending |
| PingDemux.RecentKeysFree | psysmon/checks/ping.py:349-355 | so it is as long as fewer than 2^32 keys have been drawn since any outstanding one |
| PingDemux.RunKeepsInv | psysmon/checks/ping.py:349-520 | every run whose draws are free keeps it |
| PingDemux.SingleVerdict | psysmon/checks/ping.py:438-462 | in every run from the start: a single-probe check sends at most three distinct probes, ends OK iff one of them was answered by a packet with its key and nonce while outstanding, UNPINGABLE iff all three were sent and none was, and otherwise goes on |
| PingDemux.Counts | psysmon/checks/ping.py:417-418 | the clamped pair asks for at least one reply and never for more replies than probes, leaves a consistent pair alone, and moves each count to the nearest end of its range otherwise |
| PingDemux.AnswersMeans | psysmon/checks/ping.py:359-387 | a reply answers a probe iff it bears its key and its payload starts with the nonce |
| PingDemux.CountedVerdict | psysmon/checks/ping.py:464-520 | OK, DEGRADED and UNPINGABLE reflect exactly the number of distinct probes so answered |
| PingDemux.VerdictsReflectReplies | psysmon/checks/ping.py:464-520 | the same in every run from the start |
| PingDemux.NoKeyLeftBehind | psysmon/checks/ping.py:438-520 | in every run, a pending key belongs to a probe of a check that has not ended |
| Lexer.Tokenize | psysmon/config/modern.py:66-141 | ends on every text that does not hang and gives exactly the tokens of the recursive reading, or the unterminated-string error |
| Lexer.HangsExactlyOnOddSpace | psysmon/config/modern.py:66-141 | the tokenizer hangs iff a character scan meets odd whitespace where a word would start, and fails iff that scan ends inside a string |
| Lexer.StuckLoopsForever | psysmon/config/modern.py:135-138 | on such a text the loop still has input after any number of turns |
| ModernWriting.TokensRead | psysmon/config/modern.py:66-141 | any list of tokens, spaced in any way that keeps words apart and `;` off the places where it starts a comment, is read as itself |
| ModernWriting.CommentsSkipped | psysmon/config/modern.py:66-141 | a comment reaches to the end of its line: from `#` anywhere, from `;` where a statement could begin |
| ModernSyntax.Parser.CollectToSemi | psysmon/config/modern.py:258-267 | takes the tokens up to the next `;`, never past the end |
| ModernSyntax.Parser.SkipToMatching | psysmon/config/modern.py:587-596 | stops behind the brace that closes the open one |
| ModernSyntax.Parser.CollectAttr | psysmon/config/modern.py:557-579 | takes an attribute's values up to `;`, `}` or past an inner block |
| ModernSyntax.Parser.CollectBlockAttrs | psysmon/config/modern.py:491-524 | collects a body: first value per key, all deps, unclosed bodies marked |
| ModernSyntax.Parser.ParseNamedBlock | psysmon/config/modern.py:449-489 | reads an object or group, recovering from a missing name or brace |
| ModernSyntax.Parser.ParseStatement | psysmon/config/modern.py:280-308 | reads one statement and consumes at least one token |
| ModernSyntax.Parser.ParseTop | psysmon/config/modern.py:247-253 | ends on every token list and gives exactly its statements |
| ModernSyntax.SkipsToMatchingBrace | psysmon/config/modern.py:587-596 | skipping goes through any balanced tokens to exactly the matching brace |
| ModernSyntax.InnerBlockStaysInside | psysmon/config/modern.py:557-579 | an inner block inside a body is skipped whole, so the attributes behind it stay with the same object |
| ModernWriting.PieceReads | psysmon/config/modern.py:280-308 | every statement is read as what it says and no further: in a block the first value per key counts, `=` is optional, and an object's deps are all kept |
| ModernWriting.FileReads | psysmon/config/modern.py:247-253 | a file written from any statements, spaced in any way, is read as those statements |
| ModernWriting.StraysSkipped | psysmon/config/modern.py:280-308 | an unknown word, or a string or sign where a word should stand, is skipped to its `;` |
| ModernWriting.BodilessSkipped | psysmon/config/modern.py:449-489 | so is an object or group without a body |
| ModernWriting.QuotedObjectSkipped | psysmon/config/modern.py:449-489 | an object whose name is a string is not declared, and reading goes on behind the next `;` |
| ModernWriting.NamelessSkipped | psysmon/config/modern.py:449-489 | a block without a name is skipped whole, however deep it nests |
| ModernWriting.FileMayEnd | psysmon/config/modern.py:258-267 | at the end of the file a line needs no `;`, and an unclosed block keeps what it has said |
| ModernMeaning.ReferencesExpand | psysmon/config/modern.py:269-277 | a reference to a set variable is its value, to an unset one itself; other text stays |
| ModernMeaning.AttributeValue | psysmon/config/modern.py:664-675 | an attribute has the value of its first word or string |
| ModernMeaning.NodeMeans | psysmon/config/modern.py:664-823 | an object is kept iff it names a host, a known type and what that type needs; its node has, field by field, what its attributes say: `host` before `ip`, a port where the type takes one, credentials as a pair, ping counts as a pair, a setting only if acceptable |
| Text.PlainIsPlain | psysmon/config/modern.py:818-832 | an object's integers are digits with an optional minus sign: a plus sign or an underscore makes them no number |
| Text.SignsAndGroups | psysmon/config/legacy.py:489-494 | the legacy format's integers may have either sign and underscores between digits |
| ModernMeaning.DepsMean | psysmon/config/modern.py:742-751 | deps are the nonempty names asked for, each once, in the order of first asking |
| Groups.InheritanceIsInlining | psysmon/config/modern.py:852-884 | resolving a group gives every object exactly the node it would have with the group attributes it did not declare written on it (the ping pair only if it declared neither) |
| Groups.FailureIsNotInherited | psysmon/config/modern.py:664-751 | the one difference: an object without a node would get one by inlining iff it is a dns object lacking only a contact that its group has |
| Groups.RunKeepsGroupsOk | psysmon/config/modern.py:609-636 | every file yields groups of the form those two laws ask for |
| GroupFiles.GroupIsRecorded | psysmon/config/modern.py:609-636 | the first block of a group is recorded with each of its six plain settings as written and its source in normal form or left out |
| GroupFiles.WritingIsInlining | psysmon/config/modern.py:852-884 | writing a group block's attributes on a member gives the node that recording and applying the group gives |
| GroupFiles.LastSetWins | psysmon/config/modern.py:310-323 | a variable has the value of the last well-formed `set` before the statement, expanded there |
| GroupFiles.FileDefines | psysmon/config/modern.py:598-636 | the objects of a file are, in order, those of the statements that first declare their name acceptably; each has the node of its own block with the first block of its group written in |
| Groups.DeclarationOrderIsFree | psysmon/config/modern.py:852-884 | two `$`-free files with the same objects and the same groups in order, interleaved in any way, give the same objects |
| Forest.Reaches | psysmon/config/modern.py:912-924 | the stack search ends and answers true iff the target is the start or below it |
| Forest.LinkDep | psysmon/config/modern.py:897-907 | one dep: dropped and reported if unknown or if it closes a cycle, else linked; the graph stays maximal and acyclic |
| Forest.BuildForest | psysmon/config/modern.py:886-910 | for any objects and deps: acyclic; every dropped known edge would close a cycle; all known edges kept if they are acyclic; children in declaration order; roots exactly the parentless; every object below a root; warnings exactly the unknown and the dropped deps |
| Modern.ObjectsWellNamed | psysmon/config/modern.py:598-607 | whatever a file says, the objects handed to the linker have distinct names and no repeated dep |
| Modern.Parse | psysmon/config/modern.py:927-940 | text to linked objects and settings: fails iff a string is unterminated or an `include` is met, else yields the objects of the file, linked by as many of their known deps as fit without a cycle, and its settings |
| Legacy.LongestMatch | psysmon/config/legacy.py:64-130 | first match in dispatch order is the longest matching keyword, so no TLS type reads as its plain one |
| LegacyStanzas.KeywordMeans | psysmon/config/legacy.py:64-85 | every documented keyword means its type; the dropped types mean none |
| LegacyStanzas.KeywordsShared | psysmon/config/modern.py:184-199 | the modern format accepts every documented legacy keyword and means the same type by it, and no dropped type |
| Legacy.LegacyParser.ParseBlock | psysmon/config/legacy.py:172-248 | the loop with its recursion reads exactly the block of the recursive definition and leaves position and running defaults behind it; the settings are those of the lines read, in order, whatever blocks they stand in |
| LegacyScan.BlocksAreFlat | psysmon/config/legacy.py:172-248 | on any file the forest equals a flat scan with one depth counter: same nodes, depths and order, blocks of non-parents discarded, valid or not |
| LegacyScan.RefusedByDepthOnly | psysmon/config/legacy.py:179-182 | the file is refused iff more than 64 braces are open at some line, a stray `}` counting for nothing |
| LegacyScan.EntriesDetermine | psysmon/config/legacy.py:172-248 | nodes and depths in order determine the forest |
| LegacyScan.LastChangeWins | psysmon/config/legacy.py:394-421 | each running default at a line is the last accepted setting of its kind before that line, across nesting and discarded blocks |
| LegacyScan.LastSettingWins | psysmon/config/legacy.py:354-435 | a setting is overridden iff some line makes it, and then has the value that the last such line gives, across nesting and discarded blocks |
| LegacyGlobals.PrefixMeans | psysmon/config/legacy.py:376-399 | a directive that starts with an original keyword means in a legacy file what that keyword means in a modern one, however it goes on; no other is taken for one |
| LegacyGlobals.FormatsAgree | psysmon/config/legacy.py:376-436 | where both formats know a directive they mean the same setting by it |
| LegacyGlobals.OneValueAgrees | psysmon/config/legacy.py:354-520 | a directive with one plain value sets the same in both formats, the per-node ones aside |
| LegacyGlobals.OtherValuesAgree | psysmon/config/legacy.py:354-482 | the same for a directive without a value and for the status file's two |
| LegacyGlobals.PathsAreJoined | psysmon/config/legacy.py:456-468 | a path split at blanks is put together again |
| LegacyGlobals.QuotedPathsAreJoined | psysmon/config/legacy.py:456-468 | and loses the quotes around it |
| LegacyGlobals.ConfigGood | psysmon/config/legacy.py:354-482 | whatever a `config` line says, what it sets is of the setting's type, and the status file's format and path are set together |
| LegacyTrip.ParsedFromLegacy | psysmon/config/legacy.py:250-352 | every node of every parsed file has whitespace-free fields, type-specific fields only where its type has them, and settings in range |
| LegacyTrip.OnlyPingsParent | psysmon/config/legacy.py:240-248 | in every parsed forest only ping, ping6 and smtp nodes have dependents |
| LegacyStanzas.StanzaReads | psysmon/config/legacy.py:250-352 | a node written as its host line, in the layout of its type with a port spelled or left out, is read as that node with the settings in force |
| LegacyStanzas.AcceptedIsStanza | psysmon/config/legacy.py:250-352 | an accepted line is, up to fields behind the contact, the stanza of the node it yields |
| LegacyStanzas.ServicePorts | psysmon/config/legacy.py:274-276 | a host whose line spells no port is checked on the well-known port of its service |
| LegacyWriting.WrittenForestReads | psysmon/config/legacy.py:172-248 | every forest that can be written, with its directives and nested blocks, is what the parser makes of its file |
| LegacyWriting.BadValuesIgnored | psysmon/config/legacy.py:394-421 | a per-node directive with a bad value changes nothing, except that an unknown contact choice means both |
| LegacyWriting.CommentsAreNothing | psysmon/config/legacy.py:190-197 | blank lines and comments are nothing |
| LegacyWriting.SevenFieldsCount | psysmon/config/legacy.py:206-216 | only seven fields count, a brace at the end of the line apart |
| Convert.FirstFree | psysmon/config/convert.py:165-168 | the renaming search ends with a name of the form base-k that is not used |
| Convert.NamesAreKept | psysmon/config/convert.py:163-171 | a host that is a free bareword is written under its own name, a taken one under the first free number, other characters as underscores |
| Convert.Serializer.Assign | psysmon/config/convert.py:163-171 | the loop ends, since numbered candidates never repeat, with an unused name, and records it |
| Convert.Serializer.EmitObject | psysmon/config/convert.py:179-223 | appends exactly the lines and the warnings of the object |
| Convert.Serializer.Walk | psysmon/config/convert.py:173-177 | a tree is written parent first, children in order, each naming its parent |
| Convert.Serializer.EmitGlobals | psysmon/config/convert.py:131-158 | appends exactly the lines and the warnings of the overridden settings, in the fixed order |
| Convert.Serializer.Run | psysmon/config/convert.py:94-105 | the text is header, settings, a blank line and the objects, with one final newline; the warnings are those of the settings, those of the objects, and one for settings without objects |
| Emission.LexLine | psysmon/config/convert.py:122-223 | every written line tokenizes to its own tokens, whatever follows it |
| Emission.FileTokens | psysmon/config/convert.py:94-105 | the written file tokenizes to the tokens of its lines |
| Reparse.QuoteMeans | psysmon/config/convert.py:114-120 | quoting goes character by character: quotes vanish, line breaks become blanks, the rest stays |
| Reparse.StatementReads | psysmon/config/modern.py:449-524 | the tokens of a written object parse to one object statement with its name and attributes |
| Reparse.ResolvedGet | psysmon/config/modern.py:664-689 | the attribute values resolved from it are those written |
| NodeTrip.NodeRoundTrip | psysmon/config/convert.py:179-223 | a legacy node comes back unchanged iff it has no quote in a field, a fitting port, a representable threshold and no inverted ping pair |
| NodeTrip.WarnsIff | psysmon/config/convert.py:114-120 | the converter warns about an object iff it strips characters, the tcp/udp port is out of range, or a non-default threshold is below 1 |
| NodeTrip.LostSilently | psysmon/config/convert.py:214-217 | among nodes without a warning, exactly those with an inverted ping pair are changed |
| RoundTrip.ForestWindow | psysmon/config/convert.py:163-177 | names are fresh, distinct barewords, and each object hangs below its parent's name |
| RoundTrip.LoadsKept | psysmon/config/convert.py:226-228 | the modern parser finds exactly the written objects whose node survives, in order |
| RoundTrip.ObjectsRoundTrip | psysmon/config/convert.py:226-235 | for any head and any legacy forest: names, nodes, deps and order come back iff every node is clean |
| RoundTrip.CleanIffSilent | psysmon/config/convert.py:107-120 | every node is clean iff the conversion gave no warning and no ping pair is inverted |
| ForestTrip.ForestRoundTrip | psysmon/config/modern.py:886-924 | a legacy forest, converted, loaded and linked, unfolds into the same ordered forest, field by field, iff every node is clean; a clean one with every dep resolved and no edge called a cycle |
| GlobalsTrip.HeadIsGood | psysmon/config/convert.py:125-158 | header and settings are lines that tokenize to what they mean |
| GlobalsTrip.GlobalsRoundTrip | psysmon/config/modern.py:325-436 | the settings read from a converted file are those converted that the converter has a line for, iff no text among them holds a quote or line break; they are all of them iff, besides, no failure threshold, contact choice or control setting was among them |
| GlobalsTrip.UnknownValues | psysmon/config/modern.py:366-421 | an unknown level means info, an unknown facility daemon, an unknown contact choice both; `none` switches logging off; malformed numbers are skipped |
| GlobalsTrip.SettingsWarnIff | psysmon/config/convert.py:114-120 | the converter warns about the settings iff a text among them holds a quote or line break |
| GlobalsTrip.Synonyms | psysmon/config/modern.py:149-178 | `noheartbeat` is `heartbeat 0`, `from` is `sender` |
| Modern.ConvertedIsSound | psysmon/config/convert.py:226-228 | a converted file never hangs the tokenizer and never fails to parse, clean or not |
| Modern.Reload | psysmon/config/convert.py:226-228 | serializer and modern parser composed: the object, forest and settings laws above for the real text |
| LegacyTrip.Migrate | psysmon/config/convert.py:231-235 | legacy parser, serializer and modern parser composed, for every file and nothing else given: refused by depth, or converted; back to the same forest iff clean; back to the file's settings that the converter has a line for iff none holds a quote, and to all of them iff, besides, it has a line for each |
| LegacyTrip.ControlIsLost | psysmon/config/convert.py:131-160 | a file with `config control` has a setting that the conversion loses |
| LegacyTrip.InvertedPairIsLost | psysmon/config/legacy.py:569-578 | `send_pings 1` then `min_pings 2`, each accepted, give a node that the conversion changes without a warning |

## Left out

- Sockets, raw-socket pools, TLS, privileges, fork, signals, syslog, the control server and its tokens: calls into the operating system and plumbing.
- The per-protocol checkers: the model lets a check return any status code.
- State file reading and writing and its age limit: the model starts from the decoded record list. Record keys that are not JSON scalars are not modelled.
- Status pages, message texts, time formats, command line, settings merge: display and lookups.
- The converter's warnings about settings without a directive come in the order of a dictionary and are not recorded. `detect` is not modelled.
- Wording and line numbers of warnings: linker and converter warnings are kept as kinds; other parse warnings are not recorded.
- Splitting a legacy file into lines: the model takes the lines.
- Letters, digits and case are ASCII in identifiers, numbers and `auto`; whitespace is what Python's `isspace` accepts. Python's limit on the number of digits of an integer is not modelled.
- NaN and infinite numbers count as unreadable. For intervals of objects and for the legacy `queuetime` this has the same effect as the source's rejection; the modern global `config queuetime inf` is stored by the source and skipped here.
- asyncio: a step is the code between two awaits; locks may be granted in any order, and a wait that has timed out has an unresolved future.
- Heap layout: the queue is a set of entries of which the earliest is taken.
- Paging.PagingDiscipline: a host dropped by one reload and brought back by a later one counts as new, since the source forgets it; pages are then counted afresh.
- Lexer.Tokenize: asks that the text does not hang the tokenizer, since the source then never returns.
