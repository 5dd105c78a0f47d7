# Fobe: a model of its hard parts, and what is proved of them

Fobe is a panel for fleets of small servers: one server process, a browser panel, and an agent on every
node. This project models the parts of it where correctness is decided by code rather than by the
environment, and proves what they keep over every input, every run or every interleaving.

| files | what they model |
|---|---|
| `SseClient.dfy`, `SseServer.dfy`, `SseFields.dfy` | the two readers of server-sent events: the panel's incremental one and the server's line-based one; the server's writer |
| `Forwards.dfy`, `ForwardsPlan.dfy`, `ForwardsEdits.dfy` | the editor of nftables port forwards: choosing, planning, and the kernel's atomic execution of a script |
| `ForwardsAcceptance.dfy`, `ForwardsMasquerade.dfy`, `ForwardsPackets.dfy` | which edits are accepted, and what runs of edits keep: masquerade rules per destination, and the fate of every packet |
| `ForwardsPatterns.dfy`, `ForwardsText.dfy` | the line patterns; printing rules and reading `nft -a list chain` back |
| `SelfUpdate.dfy`, `AgentUpdate.dfy`, `UpdateProtocol.dfy` | the agent's self-update, the server's half of it, and both together with restarts and late messages |
| `UpdateTiming.dfy`, `UpdateReports.dfy` | when an attempt starts, and what both halves say and write down |
| `AnthropicTranscript.dfy`, `AnthropicPairing.dfy`, `AnthropicContents.dfy` | rewriting a transcript so that every tool result follows its tool use, and what each turn says |
| `AnthropicStream.dfy`, `AnthropicReplay.dfy`, `AnthropicStreams.dfy` | assembling streamed content blocks, live and for replay; the same on streams of any form |
| `Completions.dfy`, `CompletionsAssembly.dfy`, `CompletionsTurn.dfy` | assembling chat-completions tool calls from fragments, and the whole of such a stream |
| `Responses.dfy`, `ResponsesMentions.dfy`, `ResponsesCalls.dfy`, `ResponsesTurn.dfy` | reporting each call of a Responses stream once, and its text and items |
| `Icmp.dfy` | the internet checksum of RFC 1071 and echo packets |
| `Lru.dfy`, `LruHistory.dfy`, `Online.dfy` | the least-recently-used cache and the country lookup behind it |
| `Singbox.dfy`, `SingboxRollback.dfy` | installing and rolling back a binary and a configuration as file moves |
| `Registration.dfy`, `RegistrationRuns.dfy` | probe registration, statement by statement, with requests interleaved |
| `Terminal.dfy`, `TerminalSafety.dfy` | the web terminal manager with its concurrent goroutines |
| `Wrappers.dfy`, `Text.dfy`, `Sorting.dfy`, `StreamEvents.dfy` | shared types and text, sorting and stream vocabulary |

Code that works by changing things is written as methods with loops, and as classes where the source has
objects; each is proved against a function, and the promises are proved of the functions. Where several
goroutines or machines act, one step is one critical section, one database statement or one message, and
runs are arbitrary sequences of steps.

What the outside decides enters as a parameter or as an arbitrary event: which texts are valid JSON
(`Assemble`), which texts are IPv4 addresses and how nft prints them (`Net`), what the lookup endpoint
answers (`Endpoint`), where a file operation fails (`Fault`), clocks, and the order of events. Hashes of
secrets and tokens are ideal: they match exactly what was hashed.

Results that say where the code falls short of a stronger promise:

- A deletion leaves as many masquerade rules as surviving forwards need, or as there were, exactly under the
  condition in `ForwardsMasquerade.DeleteLeavesEnough`; two rules of one tuple that share a masquerade rule do not
  meet it (`ForwardsMasquerade.SharedMasqueradeGoes`).
- An accepted update keeps the rule set free of conflicts exactly when no other rule that owns the remembered
  handle by now conflicts with the new rule (`ForwardsPackets.UpdateSafeIff`), and a run of edits does exactly
  when all its accepted updates are such (`ForwardsPackets.RunKeepsConflictFree`).
- On every reachable state with an anchored plan, three failures are the limit of the update circuit breaker exactly when the agent's
  memory and its file count the same for the current plan, a running attempt will be counted against that plan, no
  timer of another plan is pending, and no undelivered report names another target
  (`UpdateProtocol.BreakerExactly`). So a retry while an attempt runs breaks it
  (`UpdateProtocol.RetryDuringAttempt`). One handshake without an offer wipes the budget
  (`UpdateProtocol.UnofferedForgets`), and an operator's retry in the same second as the old plan unlocks nothing
  (`UpdateProtocol.RetryUnlocksIff`).
- A transcript that asks twice under one id cannot place an answer given in between
  (`AnthropicPairing.ReusedIdFails`).
- As far as it is read without a failure, a Responses stream reports every call once, as soon as it is mentioned,
  exactly when no call is first mentioned under the key of another and none is mentioned again, by an item without
  its call id, under the key of no call (`ResponsesCalls.PromptStreamIff`). With call ids on all items the first
  condition alone decides (`ResponsesCalls.CarriedPromptIff`); with different keys for different calls the second
  alone decides whether some call is reported twice (`ResponsesCalls.ReportedTwiceIff`).
- The checksum's 32-bit accumulator is right up to 131074 bytes and wrong for some packet one byte longer
  (`Icmp.ShortIsRfc`, `Icmp.LongerIsNotRfc`).
- A download that fails after a successful upgrade brings the older binary back
  (`SingboxRollback.FailedDownloadDowngrades`).
- The two event readers can differ where a carriage return is not followed by a line feed. They agree on every
  text without such a carriage return (`SseServer.ReadersAgree`), which is more than they need; and they agree on
  all texts written with given line endings exactly when a carriage return alone is not one of these
  (`SseServer.ReadAlikeIff`).

`dafny verify dfyconfig.toml` checks the project.

## Model

| member | source | states |
|---|---|---|
| SseClient.SeparatorForms | web/src/api.ts:917-932 | of the five texts that end an event (two line breaks that do not read as one), the character tests recognise at each position exactly the one that stands there, with its length |
| SseClient.FindSSEEventEnd | web/src/api.ts:917-932 | the index loop returns the first separator of the buffer, or null exactly when there is none |
| SseClient.FirstSeparatorIsUnique | web/src/api.ts:917-932 | the first separator is determined by the text |
| SseClient.ExtensionKeepsSeparator | web/src/api.ts:917-932 | whatever arrives later, the separator already found stays the same, with the same length |
| SseClient.ParseSSEBlock | web/src/api.ts:936-950 | a block yields one message with the joined data lines and the last event name, or none when it has no data |
| SseClient.DrainSSEBuffer | web/src/api.ts:996-1006 | dispatches exactly the complete blocks, in order, and returns the rest |
| SseClient.DrainLeavesNoEvent | web/src/api.ts:996-1006 | the rest holds no complete event |
| SseClient.DrainInTwoSteps | web/src/api.ts:996-1006 | draining a text at once equals draining a prefix and then its rest with what follows |
| SseClient.ChunkingIndependence | web/src/api.ts:1042-1065 | for every text and every way of cutting it, feeding the chunks dispatches the same blocks and leaves the same rest as draining it whole |
| SseClient.StreamAI | web/src/api.ts:1042-1065 | the read loop with its final flush delivers the messages of the concatenated chunks |
| SseServer.ForEachSSE | internal/server/aiprotocol/sse.go:28-73 | the scan loop hands out the events of the line-by-line specification, up to and including the first one its callback refuses, and succeeds exactly when none is refused |
| SseServer.ServerIsByLines | internal/server/aiprotocol/sse.go:28-73 | when every carriage return is followed by a line feed, the server's reader is the common line reader |
| SseServer.PanelIsByLines | web/src/api.ts:917-1066 | on the same inputs so is the panel's reader |
| SseServer.ReadersAgree | internal/server/aiprotocol/sse.go:28-73 | hence both yield the same events and data, up to the default event name |
| SseServer.LoneCrForPanel | web/src/api.ts:936-950 | on a lone carriage return the panel yields a message |
| SseServer.LoneCrForServer | internal/server/aiprotocol/sse.go:28-73 | and the server yields nothing: the readers can differ where a carriage return stands alone |
| SseServer.ReadAlikeIff | internal/server/aiprotocol/sse.go:28-73 | for every set of line endings among the three: both readers read all texts written with them alike if and only if a carriage return alone is not among them |
| SseFields.PanelCuts | web/src/api.ts:936-950 | the panel ends a line at a line feed, at a carriage return, and at both together as one |
| SseFields.ServerCuts | internal/server/aiprotocol/sse.go:28-73 | the server ends a line at a line feed only; what is left of a text is a last line unless it is empty |
| SseFields.ServerTrims | internal/server/aiprotocol/sse.go:28-73 | the server looks away from any number of carriage returns at the end of a line |
| SseFields.LineGains | web/src/api.ts:936-950 | what a line says to both readers: a name, a colon, and a value without the one space behind the colon; no colon, no value; a colon first, nothing |
| SseFields.JoinSplits | internal/server/aiprotocol/sse.go:28-73 | data lines are joined with one line feed between neighbours |
| SseFields.Send | internal/server/httpapi/ai_turn.go:220-234 | the writer appends the frame of the event |
| SseFields.WrittenIsRead | internal/server/httpapi/ai_turn.go:220-234 | whatever events the server writes, the panel reads back, each with its name and data, however the text is cut into chunks |
| Forwards.ByHandle | internal/agent/forwards.go:441-447 | the rule found has both the wanted handle and the wanted tuple, and none is found exactly when no rule has |
| Forwards.ByHandleIsFirst | internal/agent/forwards.go:441-447 | the rule found is the first such rule |
| Forwards.TwinsFilters | internal/agent/forwards.go:453-458 | the matches are collected piece by piece, in order and each as often as it occurs |
| Forwards.TwinsOfOne | internal/agent/forwards.go:453-458 | of a single rule, that rule once, exactly if it has the wanted tuple |
| Forwards.ResolveTargets | internal/agent/forwards.go:440-472 | the loops resolve an edit to its target, not_found or ambiguous as specified |
| ForwardsEdits.ResolvesToOne | internal/agent/forwards.go:440-472 | a resolved edit has one target, present, with the wanted tuple and a nonzero handle, and its handle matches or the tuple is unique |
| Forwards.Without | internal/agent/forwards.go:395-414 | removes exactly the targets, by handle or by tuple when a handle is missing |
| Forwards.ConflictWith | internal/agent/forwards.go:483-498 | returns the first rule in conflict, none exactly when there is none |
| Forwards.Tally | internal/agent/forwards.go:356-370 | the counting loop holds the number of rules per destination |
| Forwards.MasqHandlesToDrop | internal/agent/forwards.go:356-391 | in whatever order the maps are walked, the result is the ascending list of the surplus masquerade handles |
| ForwardsPlan.DeleteStmts | internal/agent/forwards.go:339-350 | deletes the targets with nonzero handles and then the surplus masquerades |
| ForwardsEdits.DropsExist | internal/agent/forwards.go:339-391 | every handle to drop is present, once, and is exactly a surplus one |
| ForwardsEdits.AcceptedEditApplies | internal/agent/forwards.go:294-350 | the kernel executes every planned script without error, and the result is the declared one |
| ForwardsEdits.CreatesWhatIsMissing | internal/agent/forwards.go:294-350 | a planned script sets up the table or a chain exactly if it installs a rule and finds that missing, and then once |
| ForwardsEdits.AfterWellFormed | internal/agent/forwards.go:294-350 | handles stay distinct and positive |
| ForwardsEdits.NewPairIsLast | internal/agent/forwards.go:294-323 | an accepted addition or update leaves the new rule last with all its fields, and its masquerade rule behind the others |
| ForwardsAcceptance.AddAcceptedIff | internal/agent/forwards.go:294-305 | an addition is accepted if and only if protocol, ports, address, interface and comment are well-formed and no packet matches it and an existing rule; else the code names the first fault, or the conflict |
| ForwardsAcceptance.UpdateAcceptedIff | internal/agent/forwards.go:307-323 | an update is accepted if and only if the fields are well-formed, the rule it refers to is found, and no packet matches the new rule and another one than the owner of the remembered handle; the first to fail gives the code |
| ForwardsAcceptance.DeleteAcceptedIff | internal/agent/forwards.go:325-333 | a deletion is accepted if and only if its handle is nonzero and a rule has handle and tuple, or just one rule has the tuple, and a handle; otherwise several with the tuple are ambiguous, and anything else is not found |
| ForwardsMasquerade.DeleteConserves | internal/agent/forwards.go:325-391 | a deletion from a covered destination keeps masquerades minus forwards for every destination |
| ForwardsMasquerade.DeleteLeavesEnough | internal/agent/forwards.go:356-391 | it leaves the smaller of existing masquerades and surviving forwards exactly under the stated condition, always with distinct tuples |
| ForwardsMasquerade.SharedMasqueradeGoes | internal/agent/forwards.go:356-391 | of two rules with one tuple and one masquerade rule, deleting the first leaves the second without any |
| ForwardsMasquerade.EditConserves | internal/agent/forwards.go:294-333 | every accepted edit of a covered table keeps the surplus of every destination |
| ForwardsMasquerade.StepIsAfter | internal/agent/forwards.go:144-214 | an edit either is refused and changes nothing or takes the table to the declared one |
| ForwardsMasquerade.RunConserves | internal/agent/forwards.go:294-414 | over any run of edits a covered table stays covered and every surplus stays constant |
| ForwardsPackets.ConflictIsSharedPacket | internal/agent/forwards.go:483-498 | two rules conflict exactly when some packet matches both |
| ForwardsPackets.ClearMeansNoSharedPacket | internal/agent/forwards.go:483-498 | without rules of other tools' making, no conflict is found exactly when no packet matches the candidate and an existing rule |
| ForwardsPackets.OneMatch | internal/agent/forwards.go:483-498 | in a conflict-free table at most one rule matches a packet |
| ForwardsPackets.OrderIsIrrelevant | internal/agent/forwards.go:483-498 | so every packet's fate is independent of the order of rules |
| ForwardsPackets.DeleteMeaning | internal/agent/forwards.go:325-333 | a deletion changes only packets of the deleted rule, which are no longer forwarded |
| ForwardsPackets.EditMeaning | internal/agent/forwards.go:294-333 | an accepted edit sends exactly the new rule's packets to its destination, stops the old rule's, and leaves all others alone |
| ForwardsPackets.UpdateMeaning | internal/agent/forwards.go:307-323 | the same for an update in a table with other tools' rules in it |
| ForwardsPackets.EditKeepsConflictFree | internal/agent/forwards.go:294-333 | an accepted addition or deletion keeps a conflict-free table conflict-free, an accepted update if and only if no other owner of the remembered handle conflicts with the new rule |
| ForwardsPackets.RunKeepsConflictFree | internal/agent/forwards.go:294-333 | a run leaves the table conflict-free throughout if and only if each of its accepted updates meets that condition when it runs |
| ForwardsPackets.RecycledHandleConflicts | internal/agent/forwards.go:307-323 | if the remembered handle now names another rule, that rule can be installed a second time |
| ForwardsPackets.UpdateSafeIff | internal/agent/forwards.go:307-323 | for each accepted update of any conflict-free table: the table stays conflict-free if and only if no other rule that owns the remembered handle conflicts with the new rule |
| ForwardsPatterns.ScanExactly | internal/agent/forwards.go:914 | the scanner of prerouting lines succeeds with given captures exactly when the line is the text that the pattern allows with them |
| ForwardsPatterns.SuffixFound | internal/agent/forwards.go:916 | the handle found is the one of the suffix, not one spelled inside the rule or its comment |
| ForwardsText.ParseForwardsText | internal/agent/forwards.go:925-993 | the two loops read the chains as specified line by line |
| ForwardsText.AcceptedIsPrintable | internal/agent/forwards.go:510-555 | every accepted rule with a dotted address is covered by the round trips |
| ForwardsText.RuleRoundTrip | internal/agent/forwards.go:562-576 | the statement that adds a rule, listed without its first words and with any handle and indentation, reads back as that rule with that handle |
| ForwardsText.PatternReads | internal/agent/forwards.go:925-953 | any listed rule of that form, with or without interface, port, comment and handle, reads as just what it says; without a port the destination keeps the source port |
| ForwardsText.OtherIsOpaque | internal/agent/forwards.go:954-980 | any other rule with such a verdict is kept, with its handle, as one that is only shown |
| ForwardsText.MasqRoundTrip | internal/agent/forwards.go:578-581 | the same for the statement that adds its masquerade rule |
| ForwardsText.ListingRoundTrip | internal/agent/forwards.go:925-993 | a listing of the prerouting chain with any added rules among other lines reads back as those rules in order |
| ForwardsText.MasqListingRoundTrip | internal/agent/forwards.go:925-993 | so does a listing of the postrouting chain |
| SelfUpdate.SelfUpdater.ConsiderPlan | internal/agent/selfupdate.go:294-372 | the method changes memory, file, timer and reports as the decision says, in each of its branches |
| SelfUpdate.SelfUpdater.Fail | internal/agent/selfupdate.go:471-502 | a failed attempt is counted, written, reported and possibly suppressed as specified |
| SelfUpdate.BackoffIsCappedDoubling | internal/agent/selfupdate.go:484-490 | although the shift wraps in 64 bits, the wait is the smaller of 60 times 2^(streak-1) and 3600 seconds for every streak |
| SelfUpdate.BackoffMonotone | internal/agent/selfupdate.go:484-490 | hence waits never shrink and lie between a minute and an hour |
| UpdateTiming.StartsIff | internal/agent/selfupdate.go:115-140 | an idle agent starts a plan if and only if it is for another build, updates are supported, budget is left, its second has come and the wait after failures of the same plan is over |
| UpdateTiming.WaitsUntil | internal/agent/selfupdate.go:351-361 | too early, it sets a timer to the end of that wait, or else to the plan's second |
| UpdateTiming.StepStartsIff | internal/agent/selfupdate.go:294-372 | in any state of agent and server, a step starts an attempt if and only if it is a handshake or a timer with such a plan at such a time |
| UpdateTiming.NeverEarly | internal/agent/selfupdate.go:294-372 | over every run in which the server keeps offering its build, no attempt starts before the second offered |
| UpdateTiming.BackoffIsKept | internal/agent/selfupdate.go:471-502 | after a transient failure the next attempt starts no sooner than a minute later, doubled with each further failure up to an hour, whatever handshakes, timers and restarts lie in between |
| UpdateTiming.TerminalRests | internal/agent/selfupdate.go:480-483 | a terminal failure leaves no wait |
| UpdateTiming.StartsInTheEnd | internal/agent/selfupdate.go:294-372 | a plan that can be carried out is attempted in the end: at once, or when the timers set for it have fired on their seconds |
| UpdateReports.DecideIs | internal/agent/selfupdate.go:115-140 | the five answers of the decision, each with its exact condition and the seconds to wait |
| UpdateReports.OwnBuild | internal/agent/selfupdate.go:298-316 | hearing of its own build the agent notes it if it was on its way to some build, and reports it exactly if it was this one and not reported yet |
| UpdateReports.CommittedOnce | internal/agent/selfupdate.go:298-316 | so it is reported once |
| UpdateReports.OtherBuild | internal/agent/selfupdate.go:317-372 | hearing of another build it notes the plan and reports that it cannot update, has given up and why, or starts |
| UpdateReports.FailureTells | internal/agent/selfupdate.go:471-502 | a failure is counted on top of those of the same target, written and reported, the third terminal one also as giving up |
| UpdateReports.RestartLeaves | internal/agent/selfupdate.go:245-275 | a restart leaves the file and what was sent, and nothing else |
| AgentUpdate.Fnv1a | internal/server/agentupdate/agentupdate.go:283-294 | the loop computes the 64-bit FNV-1a hash |
| AgentUpdate.StaggerOffset | internal/server/agentupdate/agentupdate.go:274-281 | the slot lies within the stagger window, and is zero when there is none |
| AgentUpdate.SlotIsTheHash | internal/server/agentupdate/agentupdate.go:274-281 | the slot is the hash of node and target reduced by whole windows |
| AgentUpdate.FnvVectors | internal/server/agentupdate/agentupdate.go:283-294 | the published hashes of the empty text and of one letter |
| AgentUpdate.NodeRecord.Offer | internal/server/agentupdate/agentupdate.go:210-245 | reads and writes the row and answers as specified |
| AgentUpdate.NodeRecord.Retry | internal/server/agentupdate/agentupdate.go:427-432 | an operator's retry forgets attempts, error, state and plan and keeps versions and completion time: no start is pending then, and the next offer is planned from the moment it is made |
| AgentUpdate.OfferIsStable | internal/server/agentupdate/agentupdate.go:210-281 | a planned node is offered the same start at every handshake and its row is left alone |
| AgentUpdate.FirstOfferPlans | internal/server/agentupdate/agentupdate.go:210-281 | the first offer anchors the plan that all later ones repeat |
| AgentUpdate.ReportKeepsPlan | internal/server/store/nodes.go:331-371 | a report keeps the plan exactly when it names the target, names none, or re-anchoring lands on the same second |
| UpdateReports.OfferWrites | internal/server/agentupdate/agentupdate.go:210-245 | an offer writes the row exactly to note an arrival once, or to plan anew, field by field |
| UpdateReports.ShownIsOffered | internal/server/agentupdate/agentupdate.go:210-281 | an offer names the build and the plan's second moved by the slot, never negative, and the panel shows that second while the plan is pending |
| UpdateReports.ReportWrites | internal/server/store/nodes.go:344-358 | a report writes target, phase, count, error and time of arrival, and leaves version and plan |
| UpdateProtocol.ReanchorKeepsSpent | internal/agent/selfupdate.go:196-209 | receiving the current plan never clears what was spent on it |
| UpdateProtocol.SuppressedIffSamePlan | internal/agent/selfupdate.go:115-140 | an exhausted plan is suppressed exactly while its anchor stands |
| UpdateProtocol.StepKeepsInv | internal/server/agentupdate/agentupdate.go:210-281 | every step other than a retry or a missing offer keeps server, file and memory in agreement and counts each terminal failure |
| UpdateProtocol.CircuitBreaker | internal/agent/selfupdate.go:294-372 | over any run at most three attempts fail terminally, whatever the restarts, reconnects and transient failures, and every handshake offers the same start |
| UpdateProtocol.ExhaustedStaysDown | internal/agent/selfupdate.go:294-372 | after that no attempt is started and every consideration is suppressed |
| UpdateProtocol.BudgetIsExact | internal/agent/selfupdate.go:471-502 | the remaining budget can be used up |
| UpdateProtocol.BreakerExactly | internal/agent/selfupdate.go:294-372 | for every sound agent and anchored plan, with or without an attempt under way: the bound holds over all quiet runs if and only if memory and file count the same for the plan, the attempt is for the target and counts against the plan, no other plan's timer is pending, and no report about another target is under way |
| UpdateProtocol.AlwaysSound | internal/agent/selfupdate.go:294-502 | every run, with retries and missing offers too, keeps the agent sound: the file counts at least what memory does, for any plan, counts stay within the limit, and no attempt is made with the budget used up |
| UpdateProtocol.RetryDuringAttempt | internal/server/hub/hub.go:254-290 | a retry while an attempt runs, followed by that attempt's self-check, moves the plan, and the bound is gone |
| UpdateProtocol.UnofferedForgets | internal/agent/selfupdate.go:196-209 | a handshake without an offer lets a further attempt fail |
| UpdateProtocol.RetryUnlocksIff | internal/server/agentupdate/agentupdate.go:427-432 | a retry restores the budget exactly when the new start second differs |
| AnthropicTranscript.AnthropicMessages | internal/server/aiprotocol/anthropic.go:118-229 | the three passes succeed exactly on encodable, pairable transcripts, and return the specified turns and system text |
| AnthropicTranscript.OwnerPass | internal/server/aiprotocol/anthropic.go:124-141 | the first pass maps every id to the last assistant turn that sends it |
| AnthropicTranscript.ResultPass | internal/server/aiprotocol/anthropic.go:143-176 | the second pass fails exactly on an unplaceable result and otherwise collects each turn's results in input order |
| AnthropicPairing.PlaceableIff | internal/server/aiprotocol/anthropic.go:143-160 | a result can be placed exactly when an earlier turn asked for it and no later one did |
| AnthropicPairing.PairableIff | internal/server/aiprotocol/anthropic.go:118-229 | with ids unique across turns, pairing succeeds exactly when every result's id is owned by an earlier assistant turn |
| AnthropicPairing.OwnsWhatItSends | internal/server/aiprotocol/anthropic.go:264-342 | the ids used for pairing are exactly the nonempty ids of the tool-use blocks that will be sent |
| AnthropicPairing.AnswersInOrder | internal/server/aiprotocol/anthropic.go:143-176 | each result stands among its turn's answers behind exactly the earlier ones, with its id, content and error flag |
| AnthropicPairing.OwnTurnAt | internal/server/aiprotocol/anthropic.go:178-229 | each message's own turn is emitted whole where its predecessors' turns end |
| AnthropicPairing.AnswerTurnAt | internal/server/aiprotocol/anthropic.go:205-221 | the results of an assistant turn form one user turn right behind it |
| AnthropicPairing.TurnsKeepOrder | internal/server/aiprotocol/anthropic.go:178-229 | turns keep the order of their messages |
| AnthropicPairing.RewriteObeysPairing | internal/server/aiprotocol/anthropic.go:100-117 | every tool result directly follows an assistant turn that sends its tool use |
| AnthropicPairing.ResultIsSent | internal/server/aiprotocol/anthropic.go:118-229 | each result of a tool message is sent, with its id, content and error flag, in a user turn right behind an earlier assistant turn that sends a tool use under its id |
| AnthropicPairing.RewriteConserves | internal/server/aiprotocol/anthropic.go:118-229 | the blocks sent are the messages' own blocks and every input result, each exactly once |
| AnthropicContents.EncodableIff | internal/server/aiprotocol/anthropic.go:254-312 | a message can be encoded if and only if its stored blocks are readable and not the other protocol's, and, without them, an assistant's calls have an id, a name and an object for input |
| AnthropicContents.OwnBlocksSay | internal/server/aiprotocol/anthropic.go:254-312 | a message's blocks are its stored ones unchanged, or its text if there is any and, from an assistant, one tool use per call in order, with its id, name and input |
| AnthropicContents.TurnSays | internal/server/aiprotocol/anthropic.go:178-229 | a message that says something has its turn with just these blocks, one that says nothing has none |
| AnthropicContents.SystemTextIs | internal/server/aiprotocol/anthropic.go:118-195 | the system text is made of the given prompt and the system messages in order, trimmed, without those that are white space |
| AnthropicContents.JoinPartsSplits | internal/server/aiprotocol/anthropic.go:228-228 | and has a blank line between neighbours |
| AnthropicPairing.ReusedIdFails | internal/server/aiprotocol/anthropic.go:124-160 | a reused id defeats an answer given in between |
| StreamEvents.AssembleToolArguments | internal/server/aiprotocol/encode.go:105-117 | what is accepted as arguments is an object, the empty one or valid JSON |
| StreamEvents.AssembleBlank | internal/server/aiprotocol/encode.go:105-109 | white space stands for the empty object |
| StreamEvents.AssembleTrims | internal/server/aiprotocol/encode.go:105-117 | any other text is accepted exactly when, without the white space around it, it is a JSON object, and then as that |
| AnthropicStream.AnthropicStreamer.OnEvent | internal/server/aiprotocol/anthropic.go:419-552 | one event changes blocks, order, finished blocks and reports as specified |
| AnthropicStream.AnthropicStreamer.Stream | internal/server/aiprotocol/anthropic.go:419-552 | the loop stops at the first outcome, and a stream that merely ends has failed |
| AnthropicReplay.StoppedIsSettled | internal/server/aiprotocol/anthropic.go:441-509 | in a well-formed stream nothing is added to a stopped block |
| AnthropicReplay.StreamReports | internal/server/aiprotocol/anthropic.go:380-566 | however indices interleave, a well-formed stream is accepted and reports its nonempty text and thinking deltas at once, each call with all its own fragments, and the stopped blocks in start order: a text with all its text, a thinking block with all its thinking and its streamed or else its first signature, a tool use with its assembled input, any other as it came |
| AnthropicReplay.ReplayNamesTheCalls | internal/server/aiprotocol/anthropic.go:314-342 | the ids read back from the replayed blocks are the nonempty ids of the calls reported, each as often |
| AnthropicStreams.AnyStreamReports | internal/server/aiprotocol/anthropic.go:419-552 | of any stream, blocks started again, stopped twice or fed after their stop included: each event that can be read reports at once its nonempty text or thinking, or the call with the input gathered since its block last started; the first that cannot be read fails the stream with what was reported; the end marker accepts it, and the blocks kept for replay are those that have stopped, each once and as its last stop left it, in the order of their first starts, none at all if none has stopped |
| AnthropicStreams.AcceptedIff | internal/server/aiprotocol/anthropic.go:419-552 | a stream is accepted exactly if an end marker stands behind events none of which is broken, feeds or stops a block that has not started, or stops a call whose input is no object |
| AnthropicStreams.RestartForgets | internal/server/aiprotocol/anthropic.go:441-452 | a block that starts again loses what it had gathered and keeps its place |
| AnthropicReplay.DoneOnceAndLast | internal/server/aiprotocol/anthropic.go:510-552 | for any stream, done is reported exactly on acceptance, once, and last |
| AnthropicReplay.TruncatedNeverAccepted | internal/server/aiprotocol/anthropic.go:545-552 | without the end marker no stream is accepted |
| Completions.CompletionsStreamer.AddFragments | internal/server/aiprotocol/openai_completions.go:336-351 | the fragment loop extends each index's call as specified |
| Completions.CompletionsStreamer.Flush | internal/server/aiprotocol/openai_completions.go:275-300 | sorts the indices, reports the calls up to the first bad one, and done unless already sent |
| Completions.CompletionsStreamer.Stream | internal/server/aiprotocol/openai_completions.go:261-381 | the whole parser, with its rules for an ended body |
| CompletionsAssembly.InterleavingInvariance | internal/server/aiprotocol/openai_completions.go:275-351 | streams with the same fragments per index flush the same calls, however interleaved or chunked |
| CompletionsAssembly.FlushReports | internal/server/aiprotocol/openai_completions.go:285-300 | one call per index seen, ascending, with the last nonempty id and name and all arguments joined; failure exactly when some arguments are no object |
| CompletionsAssembly.DoneOnceAndLast | internal/server/aiprotocol/openai_completions.go:275-300 | done is reported exactly on acceptance, once, and last |
| CompletionsAssembly.TruncatedReportsNoCall | internal/server/aiprotocol/openai_completions.go:365-381 | with neither finish reason nor end marker the stream fails and reports no call and no end |
| CompletionsTurn.SpeaksAsStreamed | internal/server/aiprotocol/openai_completions.go:298-341 | while it is read, a stream reports exactly each choice's content and its reasoning under either name, in order |
| CompletionsTurn.StreamIs | internal/server/aiprotocol/openai_completions.go:261-381 | any stream whatever: it reports its texts up to where it stops; read to its end marker, or to its end after a finish reason, it reports its calls up to the first whose arguments are no object, and if there is none the end; otherwise it fails with nothing more |
| Responses.ResponsesStreamer.Emit | internal/server/aiprotocol/openai_responses.go:340-371 | reports a call unless its key or its call id was reported, with arguments, id and name completed from what was streamed |
| Responses.ItemsInOrder | internal/server/aiprotocol/openai_responses.go:529-547 | lists the items by ascending output index in whatever order the map is walked |
| Responses.ResponsesStreamer.Stream | internal/server/aiprotocol/openai_responses.go:322-502 | the whole parser; only response.completed makes it succeed |
| ResponsesCalls.ReportsTheLedger | internal/server/aiprotocol/openai_responses.go:340-474 | for every stream and as far as it is read, at every step the calls reported are those of the ledger that skips a mention when its key, or the id it carries, was reported |
| ResponsesCalls.PromptStreamIff | internal/server/aiprotocol/openai_responses.go:340-474 | up to any step the stream is read to, every call mentioned has been reported exactly once at every step, if and only if no first mention comes under the key of another call's first mention and no later mention without its id comes under a key of none |
| ResponsesCalls.CarriedPromptIff | internal/server/aiprotocol/openai_responses.go:340-474 | when all call items carry their ids: if and only if the first mentions of different calls have different keys |
| ResponsesCalls.ReportedTwiceIff | internal/server/aiprotocol/openai_responses.go:340-474 | when they have: some call is reported twice if and only if a later mention without its id comes under the key of no first mention before it |
| ResponsesCalls.RenamedTwiceIff | internal/server/aiprotocol/openai_responses.go:340-474 | when no key stands for two calls: if and only if an item without its call id comes under another key than its call's first mention |
| ResponsesCalls.ReportsFirstMentions | internal/server/aiprotocol/openai_responses.go:340-474 | with orderly mentions, the calls reported are those mentioned, each at its first mention with its complete arguments |
| ResponsesCalls.ExactlyOnce | internal/server/aiprotocol/openai_responses.go:448-474 | then every call of the final output is reported exactly once over the whole stream |
| ResponsesCalls.CallsCarryObjects | internal/server/aiprotocol/openai_responses.go:362-370 | every call reported carries an argument object, on every stream and at every point of it |
| ResponsesCalls.AtMostOnce | internal/server/aiprotocol/openai_responses.go:340-371 | whatever the keys, no call id is reported twice while items carry their ids |
| ResponsesTurn.SpeaksAsStreamed | internal/server/aiprotocol/openai_responses.go:387-395 | after any number of events read, the text and thinking reported are the nonempty deltas of each kind, in order |
| ResponsesTurn.ReportsGrow | internal/server/aiprotocol/openai_responses.go:373-496 | reports are only ever added at the end |
| ResponsesTurn.DoneReplays | internal/server/aiprotocol/openai_responses.go:529-547 | the last report of an accepted stream carries the final output as received, or else the items done last under each index, ascending, or nothing |
| ResponsesTurn.KeyNames | internal/server/aiprotocol/openai_responses.go:551-559 | a call is named by its item id, or else by its output index, different indices by different names |
| ResponsesTurn.MentionIsTold | internal/server/aiprotocol/openai_responses.go:397-440 | a call that is done is mentioned with the last id and name told of it, and the last whole arguments with the deltas since |
| ResponsesTurn.FinalMentionIsTold | internal/server/aiprotocol/openai_responses.go:442-466 | a call of the final output is mentioned with what it says itself, and what it leaves out as the stream told it |
| ResponsesCalls.SharedKeyLosesCall | internal/server/aiprotocol/openai_responses.go:340-347 | two calls under one key: the second is lost |
| ResponsesCalls.MissingIdReportsTwice | internal/server/aiprotocol/openai_responses.go:340-371 | a finished item without its call id, announced under a second key, is reported again |
| Icmp.FoldIsResidue | internal/agent/icmp_packet.go:27-29 | folding carries keeps the sum modulo 65535 and never turns a nonzero sum into zero |
| Icmp.IcmpChecksum | internal/agent/icmp_packet.go:19-31 | the loops compute the wrapped and folded sum, which up to 131074 bytes is the checksum of section 1 of RFC 1071 |
| Icmp.FastIsRfcIff | internal/agent/icmp_packet.go:19-31 | the 32-bit form agrees with the standard exactly while the plain sum fits 32 bits |
| Icmp.ShortIsRfc | internal/agent/icmp_packet.go:19-31 | so it does for all data up to 131074 bytes |
| Icmp.LongerIsNotRfc | internal/agent/icmp_packet.go:19-31 | and not for some data of 131075 |
| Icmp.ChecksumCancels | internal/agent/icmp_packet.go:35-44 | a message carrying its own checksum has checksum zero |
| Icmp.BuildICMPEchoRequest | internal/agent/icmp_packet.go:35-44 | the buffer written holds type, id, sequence and timestamp big-endian, and its checksum is zero |
| Icmp.FindsReply | internal/agent/icmp_packet.go:56-76 | a reply is found with or without an IPv4 header of any length and with anything behind it |
| Icmp.FoundIsReply | internal/agent/icmp_packet.go:56-76 | whatever is found is such a reply; only its code is not looked at |
| Icmp.ReplyAnswersRequest | internal/agent/icmp_packet.go:35-76 | the answer to a request gives back its id, sequence number and signed send time |
| Lru.Lru.Get | internal/server/geoip/lru.go:28-37 | returns the entry's code and moves it to the front; list and map stay in bijection |
| Lru.Lru.Put | internal/server/geoip/lru.go:39-56 | replaces in place or inserts at the front and evicts from the back down to the capacity |
| Lru.KeyIsListed | internal/server/geoip/lru.go:10-26 | every key of the map leads to a listed element |
| LruHistory.ResidentIsLastPut | internal/server/geoip/lru.go:28-56 | over any history a resident key carries the value last put, each key once |
| LruHistory.HoldsLastUsed | internal/server/geoip/lru.go:28-56 | over any history of reads and writes the resident keys are the last distinct keys put or found, up to the capacity, in order of last use |
| LruHistory.LargerHoldsMore | internal/server/geoip/lru.go:28-56 | over any history a larger cache holds every entry of a smaller one, with the same value and in the same order |
| Online.Online.Country | internal/server/geoip/online.go:41-52 | answers as the lookup without a cache would: with the endpoint's answer exactly if the address is looked up and the answer is two capital letters; keeps the cache faithful |
| Online.IsCountryCode | internal/server/geoip/online.go:83-93 | the loop accepts exactly two capital letters |
| Online.OverlapIsTransparent | internal/server/geoip/online.go:41-52 | overlapping lookups still find only the answers that asking would give |
| Singbox.SingboxManager.InstallArtifact | internal/agent/singbox_install.go:77-140 | the file moves of a download, up to each point of failure |
| Singbox.SingboxManager.Apply | internal/agent/singbox.go:457-506 | download, backup, write and gates, up to each point of failure |
| Singbox.SingboxManager.Rollback | internal/agent/singbox.go:513-551 | restores saved copies where this round claimed a change, removes the download, reports the rollback once |
| Singbox.SingboxManager.Converge | internal/agent/singbox.go:355-366 | a round ends applied or rolled back |
| SingboxRollback.RollbackExactIff | internal/agent/singbox.go:457-561 | for every failure point, binary and configuration are as before if and only if a condition on the files before holds |
| SingboxRollback.GateFailureIsUndone | internal/agent/singbox.go:487-551 | at a gate: exactly when whatever was replaced existed before |
| SingboxRollback.SuccessInstalls | internal/agent/singbox.go:457-506 | a successful round leaves exactly what was declared |
| SingboxRollback.SucceedsIff | internal/agent/singbox.go:457-506 | a round succeeds if and only if it does not come to a failing step |
| SingboxRollback.RoundTouchesOnly | internal/agent/singbox.go:457-561 | no other file is touched, and a failed round leaves no partial download |
| SingboxRollback.KeepsLastGood | internal/agent/singbox.go:457-561 | over any run in which rounds fail at gates or not at all, the node keeps what last passed |
| SingboxRollback.FailedDownloadDowngrades | internal/agent/singbox.go:360-363 | a failed download after an upgrade brings the older binary back |
| Registration.Server.HandleAgentRegister | internal/server/httpapi/agent_handlers.go:143-287 | the handler is the run of its statements, on every branch and whichever of them fail in the database |
| Registration.FindMachine | internal/server/store/nodes.go:204-208 | the first row with the machine id |
| RegistrationRuns.MachinesStayDistinct | internal/server/store/schema.sql:54-57 | ids and machine ids stay distinct in every interleaving: a consequence of the primary key and the UNIQUE constraint, which refuse what would repeat them |
| RegistrationRuns.TokenSucceedsOnce | internal/server/store/nodes.go:90-112 | a token yields at most one success |
| RegistrationRuns.BoundTokenScope | internal/server/httpapi/agent_handlers.go:155-258 | a bound token never creates a node or changes another one |
| RegistrationRuns.SuccessIssuesSecret | internal/server/httpapi/agent_handlers.go:180-200 | after a success exactly the secret handed out is valid, unless the node was deleted meanwhile |
| RegistrationRuns.SucceedsIff | internal/server/httpapi/agent_handlers.go:143-287 | undisturbed, a registration succeeds exactly for a usable token entitled to the node; the token is used up either way and a failure changes no node |
| RegistrationRuns.SucceedsIffUnfailed | internal/server/httpapi/agent_handlers.go:143-287 | with statements failing anyhow, it succeeds exactly under that condition when none of the three or four statements it needs fails |
| RegistrationRuns.SuccessWrites | internal/server/httpapi/agent_handlers.go:143-287 | what a success leaves and answers: the known machine's node with the new secret, the bound node with the new secret and machine id, or a new node with the token's note and the token's or the host's name |
| RegistrationRuns.FailureChangesNoNode | internal/server/httpapi/agent_handlers.go:143-287 | whatever statements fail, a request that does not end in a registration changes no node |
| RegistrationRuns.RaceIsRefused | internal/server/store/nodes.go:185-202 | two probes with one machine id can both pass the lookup, and the database refuses the second |
| Terminal.TerminalManager.CloseCurrent | internal/agent/terminal.go:178-186 | takes the active session |
| Terminal.TerminalManager.CloseSession | internal/agent/terminal.go:163-176 | takes it only under its own id |
| Terminal.TerminalManager.Close | internal/agent/terminal.go:188-197 | marks the manager stopped and takes the active session |
| Terminal.TerminalManager.Activate | internal/agent/terminal.go:114-121 | activates a session unless stopped |
| Terminal.TerminalManager.Finished | internal/agent/terminal.go:211-216 | a finished session clears the slot only if it holds it |
| Terminal.TerminalSession.Ask | internal/agent/terminal.go:251-257 | the first nonempty reason stays |
| TerminalSafety.OneLiveSession | internal/agent/terminal.go:80-124 | in every interleaving at most one shell has been neither killed nor waited for, and none when the next is about to start |
| TerminalSafety.OpenStarts | internal/agent/terminal.go:80-124 | a request with a known mode and a size that will do ends with its shell running, active and of that size, and the one before asked to stop and killed |
| TerminalSafety.DecidesBy | internal/agent/terminal.go:86-107 | any other mode or size is refused with its own code, and a closed manager starts nothing |
| TerminalSafety.StartRefused | internal/agent/terminal.go:109-114 | a shell that cannot be started is reported |
| TerminalSafety.PublishRefused | internal/agent/terminal.go:116-121 | one started while the manager was closed is asked to stop and killed |
| TerminalSafety.CloseRequestStops | internal/agent/terminal.go:163-176 | a request to close stops the active session under its own id, with the reason given, and nothing else |
| TerminalSafety.CloseManagerStops | internal/agent/terminal.go:188-197 | so does closing the manager |
| TerminalSafety.ExitIsReported | internal/agent/terminal.go:211-249 | a session nobody stopped reports its exit, and its error if any |
| TerminalSafety.NothingAfterClose | internal/agent/terminal.go:188-197 | after close nothing becomes active |
| TerminalSafety.ActiveLostOnlyBy | internal/agent/terminal.go:163-225 | the active session is lost only to a request, to close or to its own reaper, so a late exit never clears a successor |
| TerminalSafety.OneClosedFrame | internal/agent/terminal.go:211-249 | each session whose goroutine ran reports its end exactly once, last |
| TerminalSafety.ReasonIsFirstRequested | internal/agent/terminal.go:227-270 | the frame names the session and carries the first reason requested before the session looked, else its exit |

## Left out

- Text is a sequence of characters: UTF-8 decoding, byte lengths and the 4 MB limit on a line are not modelled.
- JSON syntax: payloads arrive decoded or as broken; validity of tool arguments is a parameter.
- SseServer.ForEachSSE: the limit on a line's length and errors of the underlying reader, which end the reading with an error, are not modelled.
- AnthropicStream.AnthropicStreamer.Stream: errors returned by the caller's callback and cancelled contexts, which stop a stream early, are not modelled.
- Completions.CompletionsStreamer.Stream: callback errors and cancelled contexts are not modelled.
- Error texts: an error is its code, or just failure; which message is at fault is not modelled.
- Reading rules from nft's JSON output, which ignores match operators; the text form is modelled instead.
- ForwardsEdits.AcceptedEditApplies: the modelled kernel takes the address texts that the check admits; nft may refuse some of them, such as IPv4 addresses in IPv6 notation.
- ForwardsText.ParseForwardsText: a prerouting line with a handle that the anchored pattern does not match is kept only as an opaque rule with its handle; the fields that the source salvages from it are not modelled.
- ForwardsText.RuleRoundTrip: rules with dotted IPv4 addresses; what other texts the address check admits is not modelled, and nft's own printing is taken to be the text written.
- Persisting the rule set to a file, enabling forwarding, and checking the applied state by reading it again.
- ForwardsPackets.ClearMeansNoSharedPacket: rules with further matches by other tools are excluded, since the source compares only protocol, port and interface.
- UpdateProtocol.CircuitBreaker: a successful commit, which restarts the process with a fresh budget, is not an event; failures to write the state file and hand-edited negative counters are not modelled.
- Overflow of durations and clocks beyond 64 bits, other than in the backoff.
- AnthropicTranscript.AnthropicMessages: the system text is gathered in a loop of its own, and blocks stand for their JSON text.
- AnthropicPairing.RewriteObeysPairing: messages that replay stored tool-result blocks verbatim are excluded; the source sends those as they are.
- Block types are told apart only as far as the code does; other fields of a start event are carried along as one text.
- Responses.ResponsesStreamer.Stream: callback errors and cancelled contexts are not modelled either; a final output item that is not an object of the expected form is skipped, as in the source, without modelling its text.
- Singbox.SingboxManager.InstallArtifact: a failing move of the old binary, whose error the source ignores, is not modelled; nor are file modes, free space and the contents of the digest check.
- Singbox.SingboxManager.Rollback: failures of its removes and renames, whose errors the source ignores, are not modelled.
- Singbox.SingboxManager.Converge: deciding whether to install, the service manager, and the branch that only starts a stopped process are not modelled; whether the configuration differs is decided by its bytes, not by their hash.
- Registration.Server.HandleAgentRegister: failures of the random source and the audit rows are not modelled, nor are node fields that no branch depends on.
- TerminalSafety.OneClosedFrame: whether the frame reaches the server is not modelled, nor that a shell which was killed eventually exits.
- Terminal input, output and resizing, which do not change who is active.
- Locks are taken to be held exactly for the sections they guard; the cache's own mutex makes each of its operations one step.
- The address classes that are not looked up, and the trimming and upper-casing of the endpoint's answer.
- The assistant's turn loop, the panel's user interface, metrics, the command line, subscriptions, mirrors and settings.
