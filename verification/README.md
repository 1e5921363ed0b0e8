# Verified model of the complaint-handling agent

A Dafny model of the stateful parts of a fintech complaint agent, with proofs of what they keep. The
agent chats with a logged-in customer about a payment problem. A chat turn loads the session's
context, decides whether the message continues the case, merges the fields it gives, looks up the
account's records and replies. Chats become back-office tickets that staff open and decide. A graph
of nodes processes each case, and tools are called through one lazily started session.

Run `dafny verify dfyconfig.toml` to check the whole project.

## Modules

- `CaseTransition`, `MessageAnalyzer`: how a message relates to the active case, and the deterministic
  analysis that stands in for the language model.
- `FieldMerge`, `ChatContext`, `ChatTurn`, `ChatRuns`, `ChatOutcomes`: a chat turn step by step, on objects
  and on values, what holds over every run of turns of a session, and where each turn ends and what it
  leaves.
- `Ranking`, `Resolver`, `ResolverAnswers`, `AccountVerifier`, `Grounding`: the transaction search with its
  stable sort, the wallet user's resolver and which record it answers with, the dispatch to it and to the
  account and settlement lookups with the verdict about the account, and the lookups joined with the chat.
- `CustomerClaims`, `CaseClaims`, `ConversationState`: claim and case histories.
- `TicketStore`, `TicketHistory`, `TicketRecord`, `TicketInvestigation`: tickets, their history, every field
  after any run, and what staff see.
- `McpSession`: the lazy session start as a transition system over any number of threads.
- `WorkflowGraph`: the node and edge table and every run through it.
- `SentenceLimit`, `VndAmount`, `SqlSplitter`, with `Text`, `Options` and `Sequences`: text routines with
  inverses.

A class is specified by a `View` of its fields and a function on values that gives the new view. Runs
are sequences of such steps, and the lemmas about runs speak of all of them.

## Conventions

- Tables and string tests that the source takes from Python, regular expressions, the workflow registry
  or data files are parameters: whitespace (any set with the blank and the newline and no visible ASCII
  character), lower-case forms, keyword matches, known workflow names, redaction. A claim holds for all of
  them unless its lemma asks for more: reading amounts back needs a whitespace table without `đ`, the lemmas
  about a backfilled hint a placeholder that is no known workflow,
  `Grounding.InsistenceNeedsUnknownWorkflow` the same placeholder in chat and resolver, and
  `ChatRuns.NothingSearchableWasGiven` the agent's own field names.
- The language model, the resolver's downstream records, rules, the case service and reply texts are
  arbitrary values given to each step. Clock readings and new ids are inputs.
- Enumerations stand for string constants the code compares with. A dictionary key that is missing and
  one that holds an empty value are told apart only where the code does.

## Where the code differs from its descriptions

- A follow-up whose hint names another known workflow drops the active case, although the comments at
  `src/fintech_agent/api/customer_chat.py:918-923` and `:245-250` call the case authoritative
  (`ChatRuns.FollowUpKeepsCaseExactlyWhen`). A thank-you does the same, against `:988-992`
  (`ChatRuns.ThanksKeepsCaseExactlyWhen`): the transition rules only exempt two message types that the
  analyzer never produces.
- Without an active case only off-topic messages add to the fields given so far; any other message starts
  them anew, against `:883` (`ChatRuns.NothingAccumulatesWithoutCase`).
- "Never reuse" at `:858-862` fails for claims and evidence when nothing else of the old issue is stored
  (`ChatRuns.CarriesOverExactlyWhen`, `ChatRuns.LeftoversCarryOver`).
- Of the guards of a turn, the older switch test never fires on its own, and the mismatch guard and the
  later identity check never fire at all (`ChatContext.SwitchTestIsRedundant`,
  `ChatContext.SecondGuardNeverFires`, `ChatRuns.IdentityCheckNeverFires`). Contradictions never lead to a
  ticket (`ChatRuns.ContradictionsNeverMakeTicket`).
- "Sensitive info always wins" (`src/fintech_agent/llm/message_analyzer.py:733`) holds only until another
  workflow is detected in an active case, and a staff request is answered first
  (`ChatRuns.FoundSensitiveWarnedExactlyWhen`).
- "One ticket per chat" (`src/fintech_agent/api/chat_handoff.py:17`) is one per key
  (`TicketHistory.TwoTicketsForOneChat`, `TicketHistory.SharedTicketExactlyWhen`).
- Replies ask for a transaction time that no search uses; answering with it alone turns several
  candidates into none (`Resolver.TimePlaysNoPart`, `Resolver.TimeAnswerFindsNothing`).
- The rule about repeating an issue (`src/fintech_agent/api/customer_chat.py:1291-1301`) never applies to a
  wallet user or merchant under a real workflow (`Grounding.InsistenceNeedsUnknownWorkflow`,
  `Grounding.InsistenceExactlyWhen`).
- "No issue, data checked" (`src/fintech_agent/api/account_verifier.py:70`) is also said of a wallet user's
  account that has records needing attention. That happens exactly when something was given, no id of it
  names an own record, no own record scores enough, and the fallback for an amount does not apply
  (`AccountVerifier.IssuesHiddenExactlyWhen`). A wrong id, a bill code or a time given alone does so on every
  account (`AccountVerifier.UnscoredAnswerHidesIssues`, `AccountVerifier.WrongIdHidesIssues`), so that answering
  the time turns an issue found into none (`AccountVerifier.AnsweringHidesIssues`); a wrong id beside the amount
  of an own record does not (`AccountVerifier.AmountRescuesWrongId`).
- An account-lock complaint is an issue exactly when the account has a record, locked or not
  (`AccountVerifier.LockVerdictExactlyWhen`, `AccountVerifier.LockEvidencePlaysNoPart`). "No match" is given
  only before anything is looked up (`AccountVerifier.VerdictExactlyWhen`).
- The single server process of `src/fintech_agent/mcp_client/client.py:10-12` survives start errors but not
  start timeouts (`McpSession.OneServerBeyondTimeouts`, `McpSession.SecondServerExactlyWhen`,
  `McpSession.TwoServersAfterTimeout`).
- An investigation of a ticket can still find nothing to search for behind its gate
  (`TicketInvestigation.GateMissesExactlyWhen`).
- "1.5k" is read as 15,000 (`VndAmount.DecimalPointIgnored`); such a reading is right exactly for an empty
  fraction or zero (`VndAmount.DecimalReadExactlyWhen`). The analyzer gives whole amounts
  (`src/fintech_agent/llm/message_analyzer.py:309-314`, `:476-499`), so the text does not arise in a chat.
- The length limiter looks for a safety reminder only right after the limit, not in the last sentence
  (`SentenceLimit.ClosingReminderKeptExactlyWhen`).
- After a rejected approval the graph closes the case; its description says manual review
  (`WorkflowGraph.ManualReviewExactlyWhen`).

## Model

| member | source | states |
|---|---|---|
| CaseTransition.ReuseExactlyWhen | src/fintech_agent/api/case_transition.py:60-140 | the old diagnosis is reused exactly by acknowledgements and by messages with an active case that neither start nor switch and name no other known workflow; then the target is the active workflow |
| CaseTransition.DecidedExactlyWhen | src/fintech_agent/api/case_transition.py:60-140 | which of the five transitions a message is and its target, by message type, active case and the two workflow names |
| CaseTransition.FinishedCaseNeverBlocks | src/fintech_agent/api/case_transition.py:100-124 | a new complaint never reuses a diagnosis whatever the case status; it is a switch exactly when two known workflows differ; the status can change only the target, and only while the active workflow is unknown |
| CaseTransition.StarterNeverContinues | src/fintech_agent/api/case_transition.py:96-134 | a new complaint or explicit switch is always a new case or a switch |
| MessageAnalyzer.ExtractAmount | src/fintech_agent/llm/message_analyzer.py:476-499 | the amount is the slang amount or that of the first pattern in range; it lies between 1,000 and 1,000,000,000, is absent exactly when no match qualifies, and its text reads back as it |
| MessageAnalyzer.MatchReadsAs | src/fintech_agent/llm/message_analyzer.py:482-495 | a match of digits, dots and commas stands for its digits, times a thousand or a million by its unit; any other stands for no amount |
| MessageAnalyzer.DetectedExactlyWhen | src/fintech_agent/llm/message_analyzer.py:684-709 | the detected name by signal: lock, then settlement, train ticket and top-up |
| MessageAnalyzer.ClassifiedExactlyWhen | src/fintech_agent/llm/message_analyzer.py:712-775 | when the fallback gives each of its nine message types |
| MessageAnalyzer.FallbackNames | src/fintech_agent/llm/message_analyzer.py:778-833 | the type, correction flag and workflow of a fallback analysis; another detected workflow within a case makes an on-topic message a switch |
| MessageAnalyzer.BelongingContinues | src/fintech_agent/llm/message_analyzer.py:712-831 | a fallback analysis marked as belonging carries the active workflow and always continues the case with reuse; it is so marked exactly when no other workflow is detected and the type names a case interaction |
| MessageAnalyzer.DetectedWorkflowLeaves | src/fintech_agent/llm/message_analyzer.py:803-817 | with an active case, any other detected workflow leads to a switch to it without reuse, unless the message is off topic |
| MessageAnalyzer.DetectorNamesAreKnown | src/fintech_agent/llm/message_analyzer.py:684-709 | the detector's names are workflows that can be diagnosed and the placeholder is none |
| MessageAnalyzer.DetectedWorkflowIsTarget | src/fintech_agent/llm/message_analyzer.py:803-817 | with the agent's own names, another detected workflow always becomes the target itself, without reuse |
| MessageAnalyzer.BackfilledHint | src/fintech_agent/llm/message_analyzer.py:862-875 | a trusted model result without a workflow keeps everything else and takes the detected or the active workflow |
| MessageAnalyzer.AnalyzedBy | src/fintech_agent/llm/message_analyzer.py:836-908 | the model's analysis is used exactly when it is trusted, unchanged when it names a workflow, and otherwise the fallback's |
| MessageAnalyzer.BackfillContinuesExactlyWhen | src/fintech_agent/llm/message_analyzer.py:859-884 | such a result continues the active case exactly when the message is off topic to the fallback or no other known workflow is detected |
| FieldMerge.MergeExtracted | src/fintech_agent/api/customer_chat.py:624-636 | the loop stores what Merged says |
| FieldMerge.MergedAt | src/fintech_agent/api/customer_chat.py:624-636 | merging overwrites exactly the mapped keys with a non-empty extracted value and drops nothing |
| FieldMerge.CompleteFrom | src/fintech_agent/api/customer_chat.py:639-652 | the loop fills what Completed says |
| FieldMerge.CompletedAt | src/fintech_agent/api/customer_chat.py:639-652 | completing fills exactly the mapped keys that the extraction lacks and the case has |
| FieldMerge.MergeThenCompleteAgree | src/fintech_agent/api/customer_chat.py:884-911 | after merge then complete, case and extraction know the same value for every mapped key; other keys are untouched |
| FieldMerge.StoresLastGiven | src/fintech_agent/api/customer_chat.py:597-636 | a case that began empty stores the last non-empty value of each mapped key over any messages, and nothing else |
| FieldMerge.AnsweredBy | src/fintech_agent/api/customer_chat.py:660-665 | the loop collects exactly the questions that some known field answers |
| FieldMerge.Recalculate | src/fintech_agent/api/customer_chat.py:655-667 | the case's open questions become the ones no known field answers |
| FieldMerge.SubtractProvided | src/fintech_agent/api/customer_chat.py:670-685 | the resolver's questions are filtered to the same list |
| FieldMerge.AnsweredExactlyWhen | src/fintech_agent/api/customer_chat.py:655-667 | a question is answered exactly by a field that holds something and that it names or the schema maps to it |
| FieldMerge.OpenExactlyWhen | src/fintech_agent/api/customer_chat.py:655-685 | a question stays, as often and in the order listed, exactly when no known field answers it |
| FieldMerge.OpenOnlyShrinks | src/fintech_agent/api/customer_chat.py:655-685 | with more known, filtering the filtered list gives the same as filtering at once, and the list only shrinks (idempotence included) |
| FieldMerge.MergingAnswers | src/fintech_agent/api/customer_chat.py:884-916 | merging any message can only strike questions out |
| ChatContext.ActiveCaseContext.Receive | src/fintech_agent/api/customer_chat.py:805-810 | the customer's line is recorded, the first problem and the identity kept |
| ChatContext.ActiveCaseContext.StartFresh | src/fintech_agent/api/customer_chat.py:261-281 | a new object with no issue, empty trackers, the same conversation and the new problem |
| ChatContext.ActiveCaseContext.Absorb | src/fintech_agent/api/customer_chat.py:882-916 | fields and claims are merged, a correction drops the diagnosis and its evidence, answered questions are struck out |
| ChatContext.ActiveCaseContext.Understand | src/fintech_agent/api/customer_chat.py:847-981 | the context and analysis after all guards; a reset makes a new object and leaves the old one as it was, otherwise the same object is updated |
| ChatContext.SwitchTestIsRedundant | src/fintech_agent/api/customer_chat.py:245-258 | the older switch test never causes a reset that the transition decision does not |
| ChatContext.SecondGuardNeverFires | src/fintech_agent/api/customer_chat.py:929-949 | for every context and analysis the mismatch guard is false |
| ChatContext.UnderstoodIs | src/fintech_agent/api/customer_chat.py:847-981 | so a message resets or not, is absorbed, and is handled under the active workflow |
| ChatContext.ActiveWorkflowGoverns | src/fintech_agent/api/customer_chat.py:918-958 | afterwards there is no active workflow or the hint equals it |
| ChatTurn.Look | src/fintech_agent/api/customer_chat.py:1107-1172 | status, resolved id, the transaction id as a field, and evidence with contradictions only from a lookup that verified a record |
| ChatTurn.Settle | src/fintech_agent/api/customer_chat.py:1200-1362 | the issue at each exit that keeps the context object: diagnosis, no-match streak and evidence |
| ChatTurn.Finish | src/fintech_agent/api/customer_chat.py:988-1847 | which exit a turn takes and the context it ends with; a real case replaces the context object by a new one |
| ChatTurn.ChatSessions.GetActiveContext | src/fintech_agent/api/customer_chat.py:197-214 | the stored context, or a new one when there is none or more than 180 seconds have passed; other sessions unchanged |
| ChatTurn.ChatSessions.Turn | src/fintech_agent/api/customer_chat.py:756-1847 | a turn changes its own session as Step says, including the object shared with the session table on the exits that do not save, and no other session |
| ChatOutcomes.ResetsExactlyWhen | src/fintech_agent/api/customer_chat.py:847-880 | a message resets the context exactly when something is stored, it is about a case, and there is no active case, or it starts, switches or names another known workflow |
| ChatOutcomes.DiagnosisSurvivesExactlyWhen | src/fintech_agent/api/customer_chat.py:900-907 | a stored diagnosis survives exactly a message that neither resets nor corrects; when one is dropped, evidence and contradictions are emptied, and otherwise they stay |
| ChatOutcomes.QuestionsAfter | src/fintech_agent/api/customer_chat.py:882-916 | the open questions after a message are those left of the issue it goes on with, and each stored field is what the message gives or what was stored |
| ChatOutcomes.EndsEarlyExactlyWhen | src/fintech_agent/api/customer_chat.py:988-1105 | when a turn ends before the lookup, at each of five exits |
| ChatOutcomes.EndsExactlyWhen | src/fintech_agent/api/customer_chat.py:1174-1377 | when a looked-up turn ends in an amount conflict, as not found, with several records, with a case opened, with a failed graph, or answered |
| ChatOutcomes.VerifiedComplaintOpens | src/fintech_agent/api/customer_chat.py:1353-1377 | a verified new complaint without a conflict opens a case exactly when the graph returns one and fails otherwise |
| ChatOutcomes.TurnLeaves | src/fintech_agent/api/customer_chat.py:988-1847 | case, workflow, service, diagnosis, lookup status and resolved record after a turn, by exit |
| ChatOutcomes.TurnBinds | src/fintech_agent/api/customer_chat.py:1150-1172 | evidence is bound and contradictions are found anew exactly by a lookup that verified a record, and an opened case has no trackers |
| ChatOutcomes.TurnStores | src/fintech_agent/api/customer_chat.py:1138-1147 | a found transaction becomes the transaction id and answers one open question about it |
| ChatOutcomes.TurnRecords | src/fintech_agent/api/customer_chat.py:805-1847 | the transcript, problem, identity and mood after a turn |
| ChatOutcomes.ForgottenExactlyWhen | src/fintech_agent/api/customer_chat.py:194-214 | a session is forgotten exactly more than 180 seconds after its last message |
| ChatOutcomes.StoredDiagnosisIsUncorrected | src/fintech_agent/api/customer_chat.py:900-907 | in every run the stored diagnosis was shown by a message of the issue that none of its later messages corrects |
| ChatRuns.IssueSurvivesExactlyWhen | src/fintech_agent/api/customer_chat.py:847-880 | an issue with anything stored survives a message exactly when it is off topic or continues the case |
| ChatRuns.FollowUpKeepsCaseExactlyWhen | src/fintech_agent/api/customer_chat.py:847-958 | a follow-up keeps the active case exactly when its hint and the active workflow are not two different known ones |
| ChatRuns.ThanksKeepsCaseExactlyWhen | src/fintech_agent/api/customer_chat.py:988-1034 | a thank-you gets the acknowledgement and keeps the case exactly then; otherwise the case is gone and the off-topic reply is sent |
| ChatRuns.NothingAccumulatesWithoutCase | src/fintech_agent/api/customer_chat.py:857-884 | without an active case only this message's fields are stored and looked up, whatever was said before |
| ChatRuns.IdentityCheckNeverFires | src/fintech_agent/api/customer_chat.py:1464-1483 | on the follow-up path the composed workflow never differs from the analyzed one |
| ChatRuns.ContextAndAnalysisAgree | src/fintech_agent/api/customer_chat.py:882-911 | after a turn's merging, case and analysis agree on every mapped key, whichever guards fired |
| ChatRuns.NewIssueStartsClean | src/fintech_agent/api/customer_chat.py:858-911 | a message that starts or switches an issue is looked up by its own fields only, with no workflow, case, diagnosis or streak of before and the conversation kept |
| ChatRuns.CarriesOverExactlyWhen | src/fintech_agent/api/customer_chat.py:863-898 | its claims and bound evidence are its own exactly when the old context had state that triggers the reset, or nothing to carry over |
| ChatRuns.ContextIsItsThread | src/fintech_agent/api/customer_chat.py:756-1847 | in every run each stored field but the transaction id is the last non-empty value given since the issue began, and bound evidence is what a lookup since then verified |
| ChatRuns.TrackerIsItsMessages | src/fintech_agent/api/customer_chat.py:886-1669 | in every run the stored claim tracker is what the claims of the issue's messages since it was made give when merged in order into an empty one |
| ChatRuns.TrackedValueIsLast | src/fintech_agent/api/customer_chat.py:894-898 | so a field is tracked exactly when one of those messages claimed it, with the last value claimed, and the history is as long as the claims |
| ChatRuns.IdleStartsAfresh | src/fintech_agent/api/customer_chat.py:194-214 | after more than 180 seconds idle any run continues like a first message |
| ChatRuns.TranscriptOnlyGrows | src/fintech_agent/api/customer_chat.py:805-1847 | until then the stored transcript, with the customer's line, is a prefix of the next one on every exit |
| ChatRuns.LeftoversCarryOver | src/fintech_agent/api/customer_chat.py:863-898 | a run where a second complaint is judged with the first one's evidence and claims |
| ChatRuns.MerchantIdIsClaimedNotStored | src/fintech_agent/api/customer_claims.py:95-110 | a merchant id is claimed but is no stored field, so it triggers no reset |
| ChatRuns.StreakAfter | src/fintech_agent/api/customer_chat.py:1281-1362 | the no-match streak begins anew with an issue, grows by one exactly when a turn ends as not found, and otherwise only returns to zero |
| ChatRuns.NewIssueNeverInsists | src/fintech_agent/api/customer_chat.py:1291-1304 | a message that starts or switches an issue ends as not found only when its own lookup found nothing, with a streak of one |
| ChatRuns.InsistsExactlyWhen | src/fintech_agent/api/customer_chat.py:988-1301 | a turn whose own lookup did not answer no match ends as not found exactly when the lookup asks for more and names no record, no earlier exit answers the message, it resets no issue and is no new complaint, the issue was not found before, nothing searchable is given and the workflow is known |
| ChatRuns.NotFoundOtherwise | src/fintech_agent/api/customer_chat.py:1286-1301 | any other not-found turn repeats an unfound issue with nothing searchable given so far, under the case's workflow |
| ChatRuns.NothingSearchableWasGiven | src/fintech_agent/api/customer_chat.py:1275-1301 | with the agent's own fields, such a turn means that the case holds no searchable field |
| ChatRuns.RefusedTurn | src/fintech_agent/api/customer_chat.py:1079-1105 | a refused message keeps its fields in a stored case that it continues; a new issue it starts is lost and the old case remains |
| ChatRuns.OpeningForgetsClaims | src/fintech_agent/api/customer_chat.py:1653-1669 | a turn that opens a case drops the trackers and keeps the fields |
| ChatRuns.UntrackedStartsOver | src/fintech_agent/api/customer_chat.py:886-907 | the next message's claims are tracked as if they were the first |
| ChatRuns.ContradictionsNeverMakeTicket | src/fintech_agent/api/customer_chat.py:1676-1680 | at the only place that asks, a ticket is made exactly when something matched and either the graph decided or the lookup is not resolved |
| ChatRuns.SensitiveWarnedExactlyWhen | src/fintech_agent/api/customer_chat.py:1036-1077 | a turn ends with the warning exactly when the analysis says sensitive and no staff is asked for |
| ChatRuns.FoundSensitiveWarnedExactlyWhen | src/fintech_agent/llm/message_analyzer.py:733-817 | for a message that matches the sensitive pattern: exactly when no staff is asked for and no other workflow than the active one is detected |
| Ranking.SortedIsRanked | src/fintech_agent/api/generic_resolver.py:263-273 | stable descending sorting of the candidates is the records with score 10, then 9, down to 2, each in account order |
| Ranking.RankedCounts | src/fintech_agent/api/generic_resolver.py:263-273 | each record is kept as often as listed exactly when it scores at least two |
| Ranking.RankedGrows | src/fintech_agent/api/generic_resolver.py:233-273 | raising scores never drops a record |
| Ranking.DescendingIs | src/fintech_agent/api/generic_resolver.py:655-655 | stable sorting by a descending key keeps every item, puts the greatest keys first and keeps the order within a key |
| Resolver.ScoresEnoughExactlyWhen | src/fintech_agent/api/generic_resolver.py:233-266 | a record scores enough exactly when amount, bank or reference matches, or the amount is near and the workflow fits |
| Resolver.MoreScoresMore | src/fintech_agent/api/generic_resolver.py:234-261 | filling in further criteria never lowers a score |
| Resolver.SearchUserTransactions | src/fintech_agent/api/generic_resolver.py:184-273 | the search returns the owned record an id names, or the ranked records |
| Resolver.SearchFindsExactly | src/fintech_agent/api/generic_resolver.py:200-273 | only the user's own records are found: the id hit, or each record exactly when it scores at least two |
| Resolver.SearchFindsNothingExactlyWhen | src/fintech_agent/api/generic_resolver.py:200-273 | nothing is found exactly when no id names an own record and no own record scores two |
| Resolver.FillingInNeverNarrows | src/fintech_agent/api/generic_resolver.py:233-273 | filling in further non-id criteria never drops a record |
| Resolver.FindProblematic | src/fintech_agent/api/generic_resolver.py:618-660 | the loop and the sort return what Problematic says |
| Resolver.ScanLists | src/fintech_agent/api/generic_resolver.py:618-660 | the scan lists, the most recent first, each own record as often as the account does exactly when it is of the workflow's services and needs attention |
| Resolver.EvidenceIsTheRecord | src/fintech_agent/api/generic_resolver.py:388-555 | whatever is claimed, a resolved or mismatch answer is one own record with its amount and the session's owner, other answers have no evidence, and a mismatch claim differs from the record |
| ResolverAnswers.ResolvedExactlyWhen | src/fintech_agent/api/generic_resolver.py:405-522 | the answer is resolved with a record exactly when an id names it, or none names any and it is the only own record that scores enough, or nothing was given and it is the only own record pending under the workflow |
| ResolverAnswers.MismatchOfExactlyWhen | src/fintech_agent/api/generic_resolver.py:524-547 | a mismatch is about a record exactly when it is the only own one pending, with another amount than the one named, and no own record scores enough |
| ResolverAnswers.SeveralAre | src/fintech_agent/api/generic_resolver.py:405-522 | several candidates are answered exactly when several own records score enough or are pending, with their number; when the scan found an issue or failed |
| ResolverAnswers.DirectHitExactlyWhen | src/fintech_agent/api/generic_resolver.py:197-218 | the record an id names is the first with that id if it is the own one, a transaction id before an order id |
| ResolverAnswers.BestFirst | src/fintech_agent/api/generic_resolver.py:229-272 | found records come by descending points: reference four, exact amount three, bank two, near amount and workflow one each |
| Resolver.MismatchExactlyWhen | src/fintech_agent/api/generic_resolver.py:524-547 | a mismatch is reported exactly for an amount without ids that no record matches, on an account with one record needing attention and another amount |
| Resolver.NoMatchExactlyWhen | src/fintech_agent/api/generic_resolver.py:405-555 | no match is answered exactly when something was given that matches no own record and the fallback does not apply, or nothing was given and the scan under a known workflow is empty |
| Resolver.AsksForMoreExactlyWhen | src/fintech_agent/api/generic_resolver.py:446-481 | more is asked exactly when nothing was given, the scan found nothing and the workflow is unknown |
| Resolver.AnswersNeverSingleOut | src/fintech_agent/api/generic_resolver.py:483-499 | once a search finds several records, no further answer but an id singles one out |
| Resolver.TimePlaysNoPart | src/fintech_agent/api/generic_resolver.py:233-273 | time and date never change what a search finds |
| Resolver.TimeAnswerFindsNothing | src/fintech_agent/api/generic_resolver.py:405-458 | a customer who has given only a time is told nothing was found, whatever the account holds |
| AccountVerifier.AnswerIsOwn | src/fintech_agent/api/generic_resolver.py:1110-1174 | whichever lookup is chosen, a resolved or mismatch answer is one own record, the own account or the own settlement, with the recorded amount and the session's owner; other answers have no amount or owner |
| AccountVerifier.AnsweredByExactlyWhen | src/fintech_agent/api/generic_resolver.py:1110-1174 | which lookup answers for each kind of session and hint, and the status and entity each gives |
| AccountVerifier.AsksForMoreExactlyWhen | src/fintech_agent/api/generic_resolver.py:1157-1168 | of users and merchants only a wallet user is asked for more, when the wallet resolver does, and not about an account lock |
| AccountVerifier.VerdictExactlyWhen | src/fintech_agent/api/account_verifier.py:188-364 | over the whole function: no match exactly when identity or subject type is turned away, an issue exactly when an admitted lookup found a record, no issue exactly when it found nothing, insufficient exactly without an analysis or when the lookup failed or needs more |
| AccountVerifier.NoIssueExactlyWhen | src/fintech_agent/api/account_verifier.py:107-126 | a wallet user's account is said to have no issue exactly when what was given misses every own record and the fallback does not apply, or nothing was given and the scan under a known workflow finds nothing pending |
| AccountVerifier.IssuesHiddenExactlyWhen | src/fintech_agent/api/account_verifier.py:107-126 | that verdict is given to an account with records needing attention exactly when there are such records, something was given, no id names an own record, every own record scores below the threshold and the fallback does not apply |
| AccountVerifier.UnscoredAnswerHidesIssues | src/fintech_agent/api/generic_resolver.py:405-555 | anything given without an amount, a bank, a reference or the id of an own record gets "no issue" on every account |
| AccountVerifier.AnsweringHidesIssues | src/fintech_agent/api/generic_resolver.py:446-555 | where a scan finds something pending and the verdict is an issue, answering with a time, a date or a bill code alone makes it "no issue" |
| AccountVerifier.WrongIdHidesIssues | src/fintech_agent/api/account_verifier.py:107-126 | an admitted wallet user who gives a transaction id of no own record and nothing else gets "no issue", whatever the account holds |
| AccountVerifier.AmountRescuesWrongId | src/fintech_agent/api/generic_resolver.py:197-272 | beside the amount of an own record, a wrong id or any other criterion still gets an issue |
| AccountVerifier.LockVerdictExactlyWhen | src/fintech_agent/api/generic_resolver.py:860-916 | an admitted account-lock complaint is an issue exactly with an analysis and an account record, no issue exactly without a record, insufficient exactly without an analysis or when the lookup failed |
| AccountVerifier.LockEvidencePlaysNoPart | src/fintech_agent/api/generic_resolver.py:906-916 | an account-lock complaint of an admitted user is an issue whether or not the record shows a lock |
| Grounding.BoundEvidenceIsOwn | src/fintech_agent/api/customer_chat.py:1150-1172 | in every run of a session looked up for itself, however messages are routed, bound evidence is an own record with its amount, or the own account or settlement without one |
| Grounding.LookupIsTransactionExactlyWhen | src/fintech_agent/api/customer_chat.py:1134-1147 | the chat takes a lookup for a transaction exactly when the wallet resolver found one, and takes over its id, amount and bank |
| Grounding.InsistenceNeedsUnknownWorkflow | src/fintech_agent/api/customer_chat.py:1294-1301 | for wallet users and merchants the rule about repeating an issue can apply only under a placeholder workflow |
| Grounding.InsistenceExactlyWhen | src/fintech_agent/api/customer_chat.py:1286-1301 | joined with the resolver, that rule applies exactly to a wallet user who repeats an unfound issue with nothing given, nothing pending, and a hint that is the placeholder in lower case |
| CustomerClaims.CustomerClaims.MergeClaim | src/fintech_agent/api/customer_claims.py:53-87 | a call changes tracker and records in place as Apply says |
| CustomerClaims.CustomerClaims.SupersedeLastOpen | src/fintech_agent/api/customer_claims.py:70-79 | the reverse scan of a correction marks the last open record of the field and no other |
| CustomerClaims.CustomerClaims.MergeExtractedFields | src/fintech_agent/api/customer_claims.py:89-110 | an extraction makes the calls for its non-empty fields in order |
| CustomerClaims.MergesExactlyWhen | src/fintech_agent/api/customer_claims.py:89-110 | one call for each mapped attribute that is not absent, zero or empty, and no other |
| CustomerClaims.ScanFindsLast | src/fintech_agent/api/customer_claims.py:70-79 | in every reachable tracker the scan stops at the field's last record |
| CustomerClaims.RunIsHistory | src/fintech_agent/api/customer_claims.py:53-87 | after any calls the history and the marks are those of a closed form, the latest value of a field is that of its last record, and that record is not superseded |
| CustomerClaims.CorrectionsSupersede | src/fintech_agent/api/customer_claims.py:112-115 | superseded records are as many as corrections of already claimed fields |
| CustomerClaims.ContradictedIsVerified | src/fintech_agent/api/customer_claims.py:222-286 | a contradiction is about a claim that was made and a different verified value, and is never also listed as unverified |
| CustomerClaims.UnverifiedExactlyWhen | src/fintech_agent/api/customer_claims.py:269-286 | a claim is unverified exactly when no evidence of its kind was verified |
| CustomerClaims.AmountContradictedExactlyWhen | src/fintech_agent/api/customer_claims.py:238-247 | the amount is contradicted exactly when the claim reads as another number than the verified one |
| CustomerClaims.BankContradictedExactlyWhen | src/fintech_agent/api/customer_claims.py:249-266 | the bank is contradicted exactly when both names are there and neither contains the other; nothing else is ever contradicted |
| CustomerClaims.EchoedAmount | src/fintech_agent/api/customer_claims.py:222-245 | an amount repeated in the replies' format contradicts the evidence exactly when it is another amount |
| CaseClaims.CaseState.RecordClaim | src/fintech_agent/api/conversation_state.py:71-80 | a new record at the end and the overlaid claims |
| CaseClaims.CaseState.SupersedeClaims | src/fintech_agent/api/conversation_state.py:82-107 | the previous record is marked, linked and listed as the same object |
| CaseClaims.RunIsHistory | src/fintech_agent/api/conversation_state.py:71-107 | after any calls the superseded list is the history's superseded records in order and the current claims are the last non-empty value of each field |
| CaseClaims.CurrentExactlyWhen | src/fintech_agent/api/conversation_state.py:71-107 | a current claim is the value of the last call that gave one other than nothing or empty text |
| CaseClaims.LinksAreNext | src/fintech_agent/api/conversation_state.py:82-107 | every superseded record links to the very next one, so the last is never superseded |
| ConversationState.ConversationState.CreateCase | src/fintech_agent/api/conversation_state.py:164-173 | a new active case at the end, and its id is the active one |
| ConversationState.ConversationState.ArchiveCase | src/fintech_agent/api/conversation_state.py:175-186 | the first case with the id is archived and the active id cleared if it was that one |
| ConversationState.ConversationState.ArchiveAndCreateCase | src/fintech_agent/api/conversation_state.py:188-195 | archives the active case, then creates |
| ConversationState.ConversationState.RestoreCase | src/fintech_agent/api/conversation_state.py:197-211 | the latest archived case of the workflow becomes active |
| ConversationState.ConversationState.SwitchToCase | src/fintech_agent/api/conversation_state.py:213-223 | the chosen case becomes active and another active one is archived |
| ConversationState.ApplyKeepsSound | src/fintech_agent/api/conversation_state.py:154-223 | every operation keeps the active id on an active listed case and only appends |
| ConversationState.StatusAfter | src/fintech_agent/api/conversation_state.py:154-223 | the status of each listed case after each operation |
| ConversationState.ActiveAfter | src/fintech_agent/api/conversation_state.py:154-223 | the active id after each operation and the case it adds |
| ConversationState.RunIsSound | src/fintech_agent/api/conversation_state.py:154-223 | so in every reachable state |
| ConversationState.AtMostOneExactlyWhen | src/fintech_agent/api/conversation_state.py:164-211 | at most one case is active all along a run exactly when each create and restore happened while none was |
| ConversationState.RestoreUndoesArchive | src/fintech_agent/api/conversation_state.py:175-211 | restoring undoes archiving exactly when no later case of the workflow is archived |
| TicketStore.Ticket.ApplyChat | src/fintech_agent/api/chat_handoff.py:378-435 | what a finalize call writes on the ticket object |
| TicketStore.Ticket.ApplyDecision | src/fintech_agent/api/chat_handoff.py:1457-1473 | status, team on approval, one audit entry |
| TicketStore.Ticket.ApplyInvestigation | src/fintech_agent/api/chat_handoff.py:1219-1272 | what an investigation overwrites, resolved or not |
| TicketStore.ChatTicketStore.FinalizeChat | src/fintech_agent/api/chat_handoff.py:341-447 | the key's ticket, or a new one, is filled and stored under the key |
| TicketStore.ChatTicketStore.HandoffLost | src/fintech_agent/api/customer_chat.py:1920-1942 | without a context the session's ticket, if any, gets the reason |
| TicketStore.ChatTicketStore.DecideTicket | src/fintech_agent/api/chat_handoff.py:1446-1474 | a decision changes that ticket only |
| TicketStore.ChatTicketStore.OpenTicket | src/fintech_agent/api/chat_handoff.py:1274-1284 | opening overlays the investigation on that ticket only |
| TicketHistory.OneTicketPerKey | src/fintech_agent/api/chat_handoff.py:53-71 | in every run with fresh ids the key map is a bijection from the keys used onto the tickets, and each key has the ticket its first finalize made |
| TicketHistory.KeyKeepsItsTicket | src/fintech_agent/api/chat_handoff.py:382-385 | no later step moves a key to another ticket |
| TicketHistory.TicketCount | src/fintech_agent/api/chat_handoff.py:53-71 | there are as many tickets as distinct keys |
| TicketHistory.SharedTicketExactlyWhen | src/fintech_agent/api/chat_handoff.py:360-362 | two chats share a ticket exactly for the same case, the same session without cases, or a case id spelling the other's session key |
| TicketHistory.TwoTicketsForOneChat | src/fintech_agent/api/chat_handoff.py:347-362 | a chat finalized before and after its case exists has two tickets |
| TicketHistory.TicketIsItsHistory | src/fintech_agent/api/chat_handoff.py:341-447 | in every run a ticket's status is that of the last finalize or decision, its log has one entry for each decision in order, and contradictions are the last ones found, never cleared |
| TicketRecord.StatusExactlyWhen | src/fintech_agent/api/chat_handoff.py:1446-1495 | in every run a ticket is approved exactly by an approval last, closed exactly by a rejection or by a chat that needs no approval, information or action, and when it has each other status |
| TicketRecord.LogIsItsDecisions | src/fintech_agent/api/chat_handoff.py:1466-1472 | in every run each audit entry has the actor, verdict, time and comment of its decision, and on approval the event of the action advised then |
| TicketRecord.AdviceIsItsHistory | src/fintech_agent/api/chat_handoff.py:307-319 | in every run action, risk and confidence are those of the last finalize, changed by the findings of later openings |
| TicketRecord.IntakeIsItsHistory | src/fintech_agent/api/chat_handoff.py:383-409 | in every run the intake is that of the last chat finalized under the key |
| TicketRecord.EvidenceIsItsHistory | src/fintech_agent/api/chat_handoff.py:285-304 | in every run each key of the staff evidence holds what the last finalize or later opening said under it |
| TicketRecord.DiagnosisIsItsHistory | src/fintech_agent/api/chat_handoff.py:407-411 | in every run each key of the diagnosis holds what the last finalize said or a later opening may change |
| TicketHistory.ApprovalIsItsHistory | src/fintech_agent/api/chat_handoff.py:401-404 | in every run a ticket asks for approval exactly as its last finalize or its last opening with an investigation decided |
| TicketHistory.AssignmentIsItsHistory | src/fintech_agent/api/chat_handoff.py:1460-1464 | in every run a ticket's team is the contract's of the last approval whose contract names one, for the action advised then, and its hand-off reason is the last one given under its key |
| TicketHistory.AuditLogOnlyGrows | src/fintech_agent/api/chat_handoff.py:1466-1472 | a ticket's log at any moment is a prefix of its later log |
| TicketHistory.StaffSees | src/fintech_agent/api/chat_handoff.py:1219-1272 | each finding is under its own key and the chat's facts stay under the others; unresolved findings touch only the likely issue of the diagnosis |
| TicketHistory.OverlayIdempotent | src/fintech_agent/api/chat_handoff.py:1219-1272 | applying the same findings twice changes nothing more, and never status, team, reason, log or contradictions |
| TicketHistory.OpeningKeepsApprovalInStepExactlyWhen | src/fintech_agent/api/chat_handoff.py:322-336 | finalizing leaves "pending approval" and the approval flag in step; opening keeps them so exactly when the findings confirm the flag |
| TicketInvestigation.BuildEvidenceSummary | src/fintech_agent/api/ticket_investigation.py:590-605 | one row for each source in order, and the labels of the missing ones |
| TicketInvestigation.SummaryPartitions | src/fintech_agent/api/ticket_investigation.py:590-652 | checked and missing labels together are all labels, each once |
| TicketInvestigation.SearchedIdIsOwn | src/fintech_agent/api/ticket_investigation.py:442-483 | a searched transaction is the only match of the complainant's own account; other outcomes but a given id name none |
| TicketInvestigation.PinnedExactlyWhen | src/fintech_agent/api/ticket_investigation.py:442-520 | how a transaction that the ticket does not name is pinned down, or why not, from the own records that score enough |
| TicketInvestigation.EntityExactlyWhen | src/fintech_agent/api/ticket_investigation.py:375-419 | the own account or settlement is investigated before an extracted one, and a transaction id before an order id |
| TicketInvestigation.GateMissesExactlyWhen | src/fintech_agent/api/chat_handoff.py:1187-1208 | behind the gate there is no identity exactly when the complainant's id is only a label, and no criterion exactly when the only one is an amount that is not a number other than zero |
| TicketInvestigation.GateExactlyWhen | src/fintech_agent/api/chat_handoff.py:1187-1208 | which tickets the gate lets in, for each workflow |
| TicketInvestigation.ApprovalExactlyWhen | src/fintech_agent/api/chat_handoff.py:1247-1284 | a ticket kept out by the gate is opened unchanged; any other asks for approval exactly when evidence of the settled workflow loaded and the rules ask for it, and without evidence for a manual review at low confidence |
| TicketInvestigation.ConfidentExactlyWhen | src/fintech_agent/api/ticket_investigation.py:629-641 | an opened ticket has high confidence exactly when the gate kept it out and the chat gave it, or every key source of a known settled workflow loaded and the action is not a review |
| TicketInvestigation.ConfidenceRestsOn | src/fintech_agent/api/ticket_investigation.py:629-641 | the named sources that high and medium confidence need for each workflow, and that it is low without them |
| TicketInvestigation.JudgedReports | src/fintech_agent/api/ticket_investigation.py:712-852 | what an investigation with evidence reports in every field |
| TicketInvestigation.UnjudgedReports | src/fintech_agent/api/ticket_investigation.py:712-852 | what one without evidence reports, and why |
| TicketInvestigation.GapsNamedExactlyWhen | src/fintech_agent/api/ticket_investigation.py:712-852 | behind the gate an unresolved investigation names a gap unless the lookup settled on an unknown workflow |
| McpSession.RunKeepsInv | src/fintech_agent/mcp_client/client.py:56-95 | every reachable state keeps the lock, flag and publication invariant |
| McpSession.ClientIsStable | src/fintech_agent/mcp_client/client.py:156-163 | once published, the client's session never changes |
| McpSession.OneSession | src/fintech_agent/mcp_client/client.py:156-185 | in every interleaving at most one constructor returns, and all callers at all moments use that session |
| McpSession.OnlySoundSessions | src/fintech_agent/mcp_client/client.py:56-100 | a constructor returns only for a ready session with its inner session stored and no error; no caller sees an uninitialized one |
| McpSession.SessionsBuilt | src/fintech_agent/mcp_client/client.py:56-70 | one session object is built for each failed start and at most one more |
| McpSession.ErroredStaysDown | src/fintech_agent/mcp_client/client.py:69-95 | a server whose start raised an error is down from then on |
| McpSession.OneServerBeyondTimeouts | src/fintech_agent/mcp_client/client.py:56-95 | in every reachable state nothing that errored is up, and at most one server is up beyond those that timed out |
| McpSession.PublicationSeals | src/fintech_agent/mcp_client/client.py:156-163 | after publication no session is built or times out, and what is down stays down |
| McpSession.SecondServerExactlyWhen | src/fintech_agent/mcp_client/client.py:56-95 | a run with a serving published session can be continued to two serving ones exactly when a timed-out one is not down |
| McpSession.TwoServersAfterTimeout | src/fintech_agent/mcp_client/client.py:67-70 | a run with two servers up after a start timeout |
| McpSession.NeverStuck | src/fintech_agent/mcp_client/client.py:156-185 | a caller that cannot move waits for a lock holder that can |
| McpSession.PublishedAnswers | src/fintech_agent/mcp_client/client.py:156-185 | once a session is published a caller can get its reply from it without the lock |
| McpSession.ReadyIsPublished | src/fintech_agent/mcp_client/client.py:56-70 | a caller whose new session became ready without an error can publish it and get its reply |
| McpSession.FailingStartIsReported | src/fintech_agent/mcp_client/client.py:65-95 | a manager that fails sets the ready flag, so that its caller can be refused with the lock free and nothing published |
| WorkflowGraph.BuildGraph | src/fintech_agent/graph/builder.py:64-99 | the successive add calls register every node and give it exactly the next node of the closed table |
| WorkflowGraph.TableIsNext | src/fintech_agent/graph/edges.py:15-96 | fixed and conditional edges together cover each node once |
| WorkflowGraph.RunIsBounded | src/fintech_agent/graph/builder.py:82-97 | for arbitrary nodes a run with k retries has at most 12+2k visits and stops exactly at audit_and_close |
| WorkflowGraph.VisitedExactlyWhen | src/fintech_agent/graph/edges.py:15-96 | after which node and state each of the fourteen nodes is visited |
| WorkflowGraph.AsksForInfoExactlyWhen | src/fintech_agent/graph/edges.py:15-20 | the missing-info handler is visited at most once, third, exactly when information is missing after the extraction |
| WorkflowGraph.BoundIsReached | src/fintech_agent/graph/builder.py:82-97 | for every k there is a complete run of that length |
| WorkflowGraph.ResponseIsCleared | src/fintech_agent/graph/edges.py:34-60 | a response is preceded by evidence that did not fail as a whole, no conflict and a routed workflow |
| WorkflowGraph.DraftIsCleared | src/fintech_agent/graph/edges.py:63-87 | a draft is entered only from such a response, with no approval awaited or through the gate with one given or not required |
| WorkflowGraph.ManualReviewExactlyWhen | src/fintech_agent/graph/edges.py:45-87 | manual review is entered exactly on a conflict or from routing; the gate never leads there |
| WorkflowGraph.RetriesAreBounded | src/fintech_agent/nodes/retry_dead_letter.py:10-46 | with the real retry node every run has at most twelve visits and two for each allowed retry |
| WorkflowGraph.RetriesExactlyWhen | src/fintech_agent/nodes/retry_dead_letter.py:10-46 | a failed fetch is retried exactly while fewer retries were made than allowed, and then the case is closed |
| SentenceLimit.SplitUndoesJoin | src/fintech_agent/llm/response_composer.py:486-514 | splitting the joined text of tidy sentences gives the sentences back |
| SentenceLimit.SentencesLoseOnlySpaces | src/fintech_agent/llm/response_composer.py:508-508 | the sentences hold every non-space character of the text in order |
| SentenceLimit.LimitKeepsPrefix | src/fintech_agent/llm/response_composer.py:505-531 | a text within the limit is untouched; otherwise its sentences become a prefix up to one final full stop |
| SentenceLimit.LimitBounds | src/fintech_agent/llm/response_composer.py:515-521 | exactly the maximum number of sentences is left of a longer text, or one more exactly when that one names a safety topic |
| SentenceLimit.LimitKeepsExactly | src/fintech_agent/llm/response_composer.py:505-531 | they are the first sentences of the text as they were, but for one full stop after the last, joined by blanks |
| SentenceLimit.ClosingReminderKeptExactlyWhen | src/fintech_agent/llm/response_composer.py:498-521 | a closing safety reminder of a longer text survives exactly when it is the first sentence beyond the limit |
| SentenceLimit.LimitIdempotent | src/fintech_agent/llm/response_composer.py:493-531 | limiting twice is limiting once |
| VndAmount.ReadsItsDigits | src/fintech_agent/api/customer_claims.py:201-219 | a text of digits and marks is read as its digits |
| VndAmount.FormatThenNormalize | src/fintech_agent/api/generic_resolver.py:145-150 | formatting then normalizing gives back every non-negative amount |
| VndAmount.ThousandsNormalize | src/fintech_agent/api/customer_claims.py:201-219 | digits followed by k are a thousand times the number |
| VndAmount.ReadsUnits | src/fintech_agent/api/customer_claims.py:201-219 | vnd after an amount changes nothing and K means thousands |
| VndAmount.PaddingIgnored | src/fintech_agent/api/customer_claims.py:201-219 | whitespace around a claimed text plays no part |
| VndAmount.OthersReadAs | src/fintech_agent/api/customer_claims.py:201-219 | numbers are themselves, nothing is no amount, and a text that is not all digits once cleaned goes through the floating-point branch |
| VndAmount.FormatInjective | src/fintech_agent/api/generic_resolver.py:145-150 | different amounts have different texts |
| VndAmount.FormatNegative | src/fintech_agent/api/generic_resolver.py:145-150 | a negative amount is shown with a minus before it |
| VndAmount.DecimalPointIgnored | src/fintech_agent/api/customer_claims.py:201-219 | a decimal point is read as a thousands mark |
| VndAmount.DecimalReadExactlyWhen | src/fintech_agent/api/customer_claims.py:201-219 | the reading is the decimal amount exactly when the fraction is empty or all digits are zero |
| SqlSplitter.SplitStatements | scripts/run_supabase_migration.py:118-130 | the loop emits the statements of the cut |
| SqlSplitter.CutConserves | scripts/run_supabase_migration.py:121-130 | groups and tail concatenate to the kept lines in order |
| SqlSplitter.CutUnique | scripts/run_supabase_migration.py:121-130 | the cut is the only division into groups that end at their only statement end, and a tail without one |
| SqlSplitter.TailDroppedExactlyWhen | scripts/run_supabase_migration.py:121-130 | lines are left unsent at the end exactly when the last kept line does not end a statement |
| SqlSplitter.SplitterLosesNothing | scripts/run_supabase_migration.py:118-130 | every kept line is in a group or the tail, and each group is sent except a lone semicolon |
| SqlSplitter.KeptLinesExactlyWhen | scripts/run_supabase_migration.py:121-125 | exactly the lines that are neither blank nor begin with two dashes are kept, as often as they occur |
| SqlSplitter.StatementLines | scripts/run_supabase_migration.py:121-130 | each statement is more than a semicolon, has no blank and no comment line, and ends a line with a semicolon exactly at its last |
| SqlSplitter.UnfinishedExactlyWhen | scripts/run_supabase_migration.py:121-130 | something is left unsent exactly when the last kept line has no semicolon at its end |
| SqlSplitter.SplitAgain | scripts/run_supabase_migration.py:118-130 | splitting the newline-joined statements gives the same statements |

## Left out

- ChatTurn.Finish: does not model the texts of replies and guardrails, the debug trace, the stored verification result and last reply, or the second lookup made when the graph picks another workflow, because none of them changes the context that the next turn reads.
- ChatTurn.ChatSessions.Turn: covers logged-in sessions; a request without a session id keeps no context and one with an unknown id changes nothing. Its exit is stated by ChatTurn.Finish.
- ChatContext.ActiveCaseContext.Absorb: keeps the claim tracker as a value; its objects are modelled in CustomerClaims, and the detector of contradictions is a parameter here.
- ChatRuns.ContextIsItsThread: the transaction id is excluded because the resolver overwrites it.
- Resolver.SearchUserTransactions: the ten percent test is exact arithmetic, an exception in the middle of the search is not modelled, and substring and case tests are parameters.
- AccountVerifier.VerdictExactlyWhen: models the verdict and not the evidence, causes and lists reported with it; resolvers registered for a workflow, of which the built-in workflows have none, are not modelled, and account and settlement lookups are inputs.
- TicketStore.ChatTicketStore.FinalizeChat: conversation texts are one digest, and complainant identity, claim and evidence summaries and timestamps are not modelled.
- TicketInvestigation.ApprovalExactlyWhen: wording, labels, the risk table, the evidence lookup and the rules are parameters, and any other exception during an investigation, which leaves the ticket as it was, is not modelled.
- VndAmount.FormatThenNormalize: covers non-negative amounts; amounts given as floats go through a parameter.
- SentenceLimit.LimitIdempotent: lower-casing is per character, so forms that depend on context are not modelled; the minimum has no effect in the source.
- MessageAnalyzer.ExtractAmount: digits are ASCII and matches of the patterns are inputs.
- McpSession.OneSession: closing and resetting the client, the unlocked creation of the global client and call timeouts are not steps.
- WorkflowGraph.RetriesAreBounded: the other nodes are arbitrary apart from leaving the retry counters alone; recursion limits of the graph library are not modelled.
- CustomerClaims.ContradictedIsVerified: unverified claims are a map, without the order of a dictionary.
- The language model, its prompts and result parsing: an analysis is an arbitrary value.
- HTTP endpoints, serializers, list filters, logging and the frontend: no state of the modelled parts.
- The execution loop of the migration script: it only counts network replies.
- Rule engine, conflict and risk rules, approval service, registry, redaction and guardrails: arbitrary parameters.
