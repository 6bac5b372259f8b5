# Verified models of the DeepKeel runtime

DeepKeel runs language-model agents: it fits conversations into a model's input budget,
drives a run through a graph of model, tool and waiting nodes, leases runs to workers,
records model invocations so that a provider is never called twice for one of them,
controls which capability packages are active, keeps budgets, and guards what goes in
and out. This project models the parts of it whose correctness is hardest to see from
one function at a time, and proves what they guarantee, for all inputs and all runs.

Each part has a module with the state, the operations as methods with loops or mutable
objects where the runtime has them, and functions that say what those operations
compute; a second module, or a second half, proves what is promised about them.

| part | files |
|---|---|
| token estimates and cut texts | `Json.dfy`, `TokenEstimation.dfy`, `EscapedText.dfy`, `PyText.dfy`, `TextCutting.dfy` |
| conversation compaction | `Messages.dfy`, `ContextCompaction.dfy`, `CompactionProperties.dfy`, `CompactionChoices.dfy` |
| assembling a model request | `ModelInputContext.dfy`, `ModelInputProperties.dfy`, `OptionalMessages.dfy`, `RequestAssembly.dfy`, `Checkpoints.dfy`, `CheckpointProperties.dfy`, `FinalCheck.dfy` |
| context sections under one budget | `ContextWindow.dfy`, `ContextWindowProperties.dfy`, `PlacementProperties.dfy`, `CutValueProperties.dfy` |
| the agent graph | `RunState.dfy`, `AgentGraph.dfy`, `GraphExecution.dfy`, `AgentGraphProperties.dfy`, `AgentTransitions.dfy`, `AnswerParts.dfy` |
| run leases | `Leases.dfy`, `LeaseProperties.dfy` |
| model invocations | `ModelInvocations.dfy`, `InvocationHistory.dfy` |
| packages | `CapabilityManifest.dfy`, `DependencyOrder.dfy`, `CapabilityControl.dfy`, `CapabilityControlProperties.dfy`, `CatalogOutcomes.dfy`, `ReconciliationProperties.dfy`, `DependencyInstallation.dfy` |
| budgets, guardrails, JSON repair | `Budget.dfy`, `Guardrails.dfy`, `GuardrailOutcomes.dfy`, `JsonRepair.dfy`, `TruncatedJson.dfy` |
| shared | `Options.dfy`, `Sorting.dfy` |

`dafny verify dfyconfig.toml` checks everything.

## What was found

Some properties one would expect are not quite so. Each is settled by a lemma with an
input, or a family of inputs, on which it fails, and by the exact condition under which
it holds; for cut lists and dictionaries the condition is exact where what comes back is
an uncut front part, and there is a bound for the rest.

- The last size check of a request can fail, but only on strange ids. When a checkpoint is
  needed with fewer than 96 tokens left for the conversation, it is given 96 tokens that
  are not there; its fixed keys, id and fingerprint alone cost more than that, so it is
  left out, unless long runs of blanks in the subject and in a message id let a cut of its
  text fit (`FinalCheckFailsExactly`, `FinalCheckCanFail`). With no run of more than
  sixteen blanks in these ids (four, of blanks that are not ASCII) the check never fails
  (`FinalCheckHoldsWithoutBlanks`).
- The head-and-tail cut probes size zero, which stands for the whole text on one side,
  before size one, and so misses a cut that fits (`HeadTailMissesAFit`,
  `HeadTailFindsSizeOneExactly`).
- A pinned context section survives a budget of nothing whole, yet is dropped at a budget
  of one token (`PinnedTextIsDroppedAtOne`, `PinnedSectionIsDroppedExactly`). Two tokens for
  each required, pinned or protected section are enough to keep them all, if they are texts
  that may cost two (`MandatoryTextsSurvive`).
- An optional context section that costs less than the minimum for a section is dropped
  whenever the context does not fit whole, however large the budget
  (`CheapSectionIsDropped`).
- A list or dictionary cut to a budget may still cost more than the budget, because its
  items are counted without brackets and commas, keys and texts without quotes and escapes
  (`CutListStaysOverBudget`, `CutDictionaryStaysOverBudget`). For every list whose first item
  that does not fit is one of which nothing can be kept, such as a number, and for every
  dictionary whose entries fit or are stopped by a key, it can be told exactly and beforehand
  what comes back and whether it is within budget (`CutListFitsExactly`,
  `FittingListFitsExactly`, `CutDictionaryFitsExactly`, `FittingDictionaryFitsExactly`). For
  all others the overrun is bounded: by a quarter of the budget for a list and half of it for
  a dictionary, one token, and a quarter token for each quote and escape (`CutListOverrun`,
  `CutDictionaryOverrun`).
- A run limited to one step can call the provider any number of times if a guardrail asks
  for approval of model output, because such turns do not count (`ApprovalsLiftTheLimit`,
  `TurnsAreCounted`); where none asks for it, the limit holds
  (`StepsBoundCallsWithoutApprovals`). This is so where model invocations are not recorded. Where they are,
  the call after the approval comes at the same step, so under the same invocation id, with
  a request that has grown by the approval, and is refused as a conflict
  (src/deepkeel/model_step_execution.py:144, src/deepkeel/model_invocations.py:213).
- One batch of tools that suspends a run both for the user and for background work is
  accepted, and the next node refuses the state (`RefusalNeedsTwoSuspensions`).
- A renewal that shortens a lease leaves an older copy of it that outlives the next
  takeover (`ShorterRenewalsOverlap`); a lease claimed under a run id with blanks around
  it is not seen under that id (`ClaimIsSeen`).
- Package ids with blanks around them can be installed twice, and uninstalling under
  such an id removes nothing (`PaddedIdInstallsTwice`, `InstallKeepsIdsDistinct`,
  `UninstallRemoves`).
- A ledger restored from a snapshot charges operations again that it has charged before:
  exactly those that add a positive amount to a sum and still fit their limit
  (`RestoredLedgerChargesAgain`, `RestoredLedgerChargesAgainExactly`,
  `ReplayChargesTwiceExactly`).

## Model

| member | source | states |
|---|---|---|
| `TokenEstimation.EstimateTextMeasuresWeight` | src/deepkeel/token_estimation.py:19-24 | the estimate is the least positive number of tokens that covers a quarter token for each ASCII character and a whole one for any other |
| `TokenEstimation.EstimateIsSubadditive` | src/deepkeel/token_estimation.py:19-24 | the estimate of two message lists joined never exceeds the two estimates together, because joining saves one bracket |
| `TokenEstimation.SingleEstimatesUndercountTheList` | src/deepkeel/token_estimation.py:19-24 | adding up estimates of single messages does not bound the list around them: a list is given that costs more |
| `TextCutting.HeadTail` | src/deepkeel/context_compaction.py:512-526 | the search loop of the head-and-tail cut yields the cut that the specification defines, for every estimator |
| `TextCutting.HeadTailNeverExceeds` | src/deepkeel/context_compaction.py:512-526 | the cut never costs more than the larger of the budget and the bare marker |
| `TextCutting.HeadTailIsLongest` | src/deepkeel/context_compaction.py:512-526 | when the longest fitting cut keeps two or more characters on each side, it is the one returned |
| `TextCutting.HeadTailFindsSizeOneExactly` | src/deepkeel/context_compaction.py:512-526 | when only one character fits on each side, that cut is found if and only if the probes from the text's length reach size one or size zero fits too; otherwise the bare marker is left |
| `TextCutting.HeadTailWithoutRoom` | src/deepkeel/context_compaction.py:512-526 | when no character fits on both sides only the marker is left, unless the whole text without its leading blanks fits after it; with a budget of seven or less it is the marker alone |
| `TextCutting.HeadTailMissesAFit` | src/deepkeel/context_compaction.py:512-526 | a text and a budget for which one character fits on each side but the bare marker is returned |
| `TextCutting.TruncateText` | src/deepkeel/context_window.py:764-777 | the binary search of the truncation yields the prefix that the specification defines, for every estimator |
| `TextCutting.TruncatedIsLongest` | src/deepkeel/context_window.py:764-777 | a text over the limit becomes the longest right-stripped prefix with an ellipsis that fits, or nothing if none fits or the limit is one |
| `TextCutting.TruncatedFits` | src/deepkeel/context_window.py:764-777 | a truncated text fits every limit of at least one |
| `Messages.AtomicMessageGroups` | src/deepkeel/context_compaction.py:461-478 | the loop that groups tool calls with their answers yields the grouping defined message by message |
| `Messages.GroupsPartition` | src/deepkeel/context_compaction.py:461-478 | the groups concatenate back to the input and none is empty |
| `Messages.AnswerJoinsItsCall` | src/deepkeel/context_compaction.py:461-478 | the first answer to a call, with only tool messages in between, is in the group that opened the call |
| `Messages.OnlyToolMessagesJoin` | src/deepkeel/context_compaction.py:461-478 | two neighbours share a group if and only if the later is a tool message and calls were still open before it |
| `Messages.OpenExactly` | src/deepkeel/context_compaction.py:461-478 | the calls open after some messages are exactly those of the message that began the last group, less those another message of the group answers |
| `Messages.OnlyValidKeepsExactly` | src/deepkeel/context_compaction.py:450-458 | a message counts if and only if it is a dictionary with one of the four roles and has a content that is something, or tool calls; the order stays |
| `ContextCompaction.CompactOversizedGroup` | src/deepkeel/context_compaction.py:481-509 | the loops that empty, cut and replace texts yield the first of the cuts and the notices that fits, or nothing, as the specification defines it; GroupIsShortenedExactly and the lemmas after it say what that is |
| `ContextCompaction.ChooseGroups` | src/deepkeel/context_compaction.py:107-131 | the backward loop over groups, with its running total and its set of chosen indexes, decides each group as the specification does |
| `ContextCompaction.CompactMessages` | src/deepkeel/context_compaction.py:82-143 | compaction returns exactly the retained and the omitted messages defined by those decisions, or that protected groups alone are over the budget |
| `CompactionProperties.CompactFits` | src/deepkeel/context_compaction.py:92-137 | for every subadditive estimator, messages and budget, what compaction retains fits the budget as one list, though the loop adds up estimates of groups |
| `CompactionProperties.DefaultCompactFits` | src/deepkeel/context_compaction.py:92-137 | the same for the runtime's own estimator |
| `CompactionProperties.SurvivorsAreTheNewest` | src/deepkeel/context_compaction.py:107-131 | protected groups are all kept; of the others all newer than one cut are kept, all older dropped, and only the group at the cut may be shortened |
| `CompactionChoices.GroupsFare` | src/deepkeel/context_compaction.py:107-131 | an unprotected group is kept whole if and only if it and all newer unprotected groups fit beside the protected ones; the newest that does not fit is shortened to exactly what they leave, if it can be; all older ones are left out |
| `CompactionChoices.CostsAddUp` | src/deepkeel/context_compaction.py:103-121 | the estimates of protected groups and of all others add up to those of all groups, each counted once |
| `CompactionProperties.AnswerStaysWithItsCall` | src/deepkeel/context_compaction.py:107-143 | a call and its first answer, with only tool messages in between, are either both omitted or both retained, in order, in one stretch, with the same role, calls and call id |
| `CompactionProperties.CompactGroupKeepsEnvelopes` | src/deepkeel/context_compaction.py:481-509 | a shortened group keeps every message in order with role, calls and call ids; only text contents change, never to nothing |
| `CompactionChoices.GroupIsShortenedExactly` | src/deepkeel/context_compaction.py:481-509 | a group is shortened to texts cut to an equal share of the budget, one token at least, if the list so formed fits; otherwise to notices if these fit; nothing comes back exactly when it is empty, there is no budget, or neither its emptied messages nor its notices fit |
| `CompactionChoices.EmptiedText` | src/deepkeel/context_compaction.py:490-496 | what is measured first is every message with exactly its text emptied |
| `CompactionChoices.CutsAreKept` | src/deepkeel/context_compaction.py:497-503 | message by message: a text that costs at most its equal share stays word for word, and any other becomes its head-and-tail cut for that share, with every other entry kept |
| `CompactionChoices.LongestCutIsKept` | src/deepkeel/context_compaction.py:497-526 | inside a group, too, a text over its share keeps the longest head and tail that fit the share, when two or more characters do on each side |
| `CompactionChoices.NoticesAreKept` | src/deepkeel/context_compaction.py:504-508 | when the cuts do not fit together, every text that was not empty becomes the notice and other contents stay |
| `CompactionProperties.CompactSettles` | src/deepkeel/context_compaction.py:82-143 | what is retained is valid and fits as it is, for every subadditive estimator |
| `CompactionProperties.SettledStays` | src/deepkeel/context_compaction.py:82-106 | valid messages that fit are returned as they are, so that compacting twice is compacting once |
| `CompactionProperties.MarkedTailSurvives` | src/deepkeel/context_compaction.py:92-143 | a tail of protected messages is retained whole, word for word, at the end |
| `ModelInputContext.FitOptionalSystemMessages` | src/deepkeel/context_compaction.py:370-391 | the loop that fits optional messages keeps what the specification keeps; OptionalKeptExactly and OptionalKeptVerbatim say what that is |
| `OptionalMessages.OptionalKeptVerbatim` | src/deepkeel/context_compaction.py:370-391 | an optional message is kept word for word, in its place, if and only if the estimates of the messages up to and including it add up to at most the budget |
| `OptionalMessages.OptionalKeptExactly` | src/deepkeel/context_compaction.py:370-391 | what is kept is exactly the longest front part whose estimates add up to at most the budget, and after it only, where shortening is on and 32 tokens are left, a shortened form of the very next message |
| `ModelInputContext.CheckpointPromptMessage` | src/deepkeel/context_compaction.py:394-439 | the first of the three texts of a checkpoint whose message fits is used, else a cut of the last if that fits |
| `RequestAssembly.CheckpointTextIsFirstToFit` | src/deepkeel/context_compaction.py:394-439 | a checkpoint is told in its whole dictionary with sixteen facts if that message fits, else with six, else in brief with three, else in a cut of the brief text if that fits, and otherwise not at all |
| `RequestAssembly.CheckpointCovers` | src/deepkeel/context_compaction.py:529-596 | a checkpoint names the first and the last message left out and the first kept, and is about the latest user message and the last eight messages left out |
| `RequestAssembly.GoalIsTheLatestUsers` | src/deepkeel/context_compaction.py:529-596 | its goal is the excerpt of the latest user message left out, and empty if there is none |
| `RequestAssembly.FactsInOrder` | src/deepkeel/context_compaction.py:529-596 | its facts are the excerpts of user and tool messages that have a text, in their order, with their ids |
| `RequestAssembly.ExcerptIsShort` | src/deepkeel/context_compaction.py:636-641 | an excerpt is the text with blanks normalised if that has at most 240 characters, and otherwise its first 237 without trailing blanks and an ellipsis |
| `RequestAssembly.BlanksAreNormalised` | src/deepkeel/context_compaction.py:636-641 | normalising leaves words as they are, drops blanks at the front and the end, and makes one blank of any between two words |
| `ModelInputContext.CompactWorkingContext` | src/deepkeel/context_compaction.py:263-315 | the conversation is compacted again with room for a checkpoint when the first compaction left messages out, and the checkpoint is about what the second left out |
| `RequestAssembly.ConversationIsCompactedTo` | src/deepkeel/context_compaction.py:263-315 | a conversation that does not fit is compacted to the budget if that leaves no group out, and there is no checkpoint; otherwise to what the room for a checkpoint leaves (a quarter, 96 tokens at least, 2048 at most), and the checkpoint is about what that leaves out; it is refused exactly when protected groups are too much for one of these |
| `ModelInputContext.PrepareModelInputContext` | src/deepkeel/context_compaction.py:211-367 | assembling a request yields the control messages, fitted L2, checkpoint, fitted L3 and conversation in order without internal entries, or the first of the three errors |
| `OptionalMessages.RequestIs` | src/deepkeel/context_compaction.py:211-349 | every ready request is exactly: the control messages; all L2 messages that fit what these leave, and a shortened form of the next if it fits; the checkpoint; all L3 messages that fit what the others leave; and the conversation compacted to what control messages and L2 leave |
| `OptionalMessages.NothingIsLeftOutThatFits` | src/deepkeel/context_compaction.py:211-349 | when control messages, L2, L3 and the valid conversation fit, all of them are in the request, in order, with nothing shortened and no checkpoint |
| `RequestAssembly.RequestRefusedExactly` | src/deepkeel/context_compaction.py:284-315 | a request is refused for its control messages if and only if they are too much, and for its conversation if and only if they are not and that cannot be compacted to what they and L2 leave |
| `RequestAssembly.EveryMessageHasItsPart` | src/deepkeel/context_compaction.py:228-252 | every message goes to exactly one of control messages, L2, L3 and conversation, by its role and tag |
| `RequestAssembly.PartsKeepOrder` | src/deepkeel/context_compaction.py:228-252 | each of these parts keeps the order of its messages |
| `RequestAssembly.PublicEntries` | src/deepkeel/context_compaction.py:442-447 | a message is sent with all its entries but those whose key begins as internal ones do |
| `RequestAssembly.TurnIsProtectedExactly` | src/deepkeel/context_compaction.py:253-265 | exactly the latest user message and all after it are marked as protected, with nothing else of them changed |
| `ModelInputProperties.FinalCheckNeverFails` | src/deepkeel/context_compaction.py:276-336 | the last size check passes whenever no checkpoint is needed or at least 96 tokens are left for the conversation |
| `FinalCheck.FinalCheckFailsExactly` | src/deepkeel/context_compaction.py:263-339 | the last size check fails if and only if a checkpoint is needed with fewer than 96 tokens left, nothing valid in the conversation is protected, the cut of the brief text about the whole conversation weighs at most 264 inside its message, and that message is too much next to control messages and L2 |
| `FinalCheck.FinalCheckCanFail` | src/deepkeel/context_compaction.py:263-339 | requests for which the last size check fails: a budget of one token and one assistant message, with three hundred or more blanks as its id and as the subject |
| `FinalCheck.FinalCheckHoldsWithoutBlanks` | src/deepkeel/context_compaction.py:263-339 | for every budget, the last size check passes when neither the subject nor an id of a message has a run of blanks heavier than sixteen |
| `FinalCheck.OnlyACutFits` | src/deepkeel/context_compaction.py:403-439 | none of the three texts of a checkpoint ever fits 96 tokens, whatever it is about; the message is the cut of the brief text or nothing |
| `FinalCheck.NoRoomKeepsNothing` | src/deepkeel/context_compaction.py:92-131 | without any room compaction leaves out every valid message, or refuses if one is protected |
| `CheckpointProperties.BriefIsLong` | src/deepkeel/context_compaction.py:414-422 | fixed keys, id and fingerprint make the brief text of every checkpoint weigh at least 279 inside a message |
| `CheckpointProperties.DictionaryIsLong` | src/deepkeel/context_contracts.py:173-197 | so does the whole dictionary of every checkpoint, however many facts it keeps |
| `CheckpointProperties.BriefBlanks` | src/deepkeel/context_compaction.py:529-596 | with no long run of blanks in the subject and the message ids there is none in the brief text, whatever the messages say |
| `CheckpointProperties.CutIsTooLong` | src/deepkeel/context_compaction.py:432-439 | a text of that weight without long runs of blanks stays too long for the message when cut to what 96 tokens leave beside the prefix |
| `ModelInputProperties.PublicWeight` | src/deepkeel/context_compaction.py:442-447 | removing internal entries never makes a message longer, and makes one that had any shorter by at least a separator |
| `ModelInputProperties.PartsFitTogether` | src/deepkeel/context_compaction.py:316-336 | parts that each fit the room left for them fit together, because the tier tags removed pay for the commas |
| `ModelInputProperties.WorkingContextFits` | src/deepkeel/context_compaction.py:263-315 | conversation and checkpoint together stay within the conversation's budget, when no checkpoint is needed or the budget is at least 96 |
| `ModelInputProperties.ControlAndCurrentTurnSurvive` | src/deepkeel/context_compaction.py:253-275 | the request begins with every control message and ends with every valid message since the latest user message, verbatim apart from internal entries |
| `ContextWindow.Compact` | src/deepkeel/context_window.py:726-762 | the recursive cutting of a value yields the value that the specification defines |
| `ContextWindow.BoundContext` | src/deepkeel/context_window.py:368-534 | the allocation and trimming loops yield the sections, and the lists of dropped, truncated, summarised and retained keys, that the specification defines, and end; the lemmas of PlacementProperties say which sections these are and in what form |
| `ContextWindow.PlaceSection` | src/deepkeel/context_window.py:428-513 | one pass of the allocation loop either drops the section or adds it last and pays for it, except that a pinned or protected one without room is added unpaid; an added required section is noted as retained |
| `PlacementProperties.SectionIsPlacedExactly` | src/deepkeel/context_window.py:428-513 | with the least of room left, cost, own limit and fair part as its allowance, a section is dropped, added whole, as its summary or cut, at its price and with every list noted, or added unpaid: each exactly when the source does |
| `PlacementProperties.MandatoryAreCounted` | src/deepkeel/context_window.py:440-446 | sections left to place are counted as mandatory if and only if they are required, pinned or protected |
| `PlacementProperties.OptionalSectionIsPlacedExactly` | src/deepkeel/context_window.py:428-513 | an optional section is placed in its turn if and only if that allowance is at least one token and the minimum and something is left of it that fits the room |
| `PlacementProperties.EveryTextIsPlaced` | src/deepkeel/context_window.py:410-534 | with a budget of all that mandatory sections cost and the minimum, two tokens at least, for each other, no text is turned down when placed, so that sections are dropped by trimming only |
| `PlacementProperties.CheapSectionIsDropped` | src/deepkeel/context_window.py:428-470 | an optional section that costs less than the minimum, or may, is dropped at every budget the context does not fit whole |
| `PlacementProperties.TrimmedOnlyOutOfNeed` | src/deepkeel/context_window.py:515-533 | a section is trimmed only if the context with it, all before it and no optional section after it is over the budget |
| `PlacementProperties.TrimKeepsNotes` | src/deepkeel/context_window.py:515-533 | what was noted of the sections left after trimming stays noted, and nothing else |
| `PlacementProperties.FittingContextIsWhole` | src/deepkeel/context_window.py:368-409 | sections that fit together are all left as they are, in the order given |
| `ContextWindowProperties.ContextIsPartitioned` | src/deepkeel/context_window.py:410-534 | every section is in exactly one of kept and dropped, truncated and summarised sections are kept, and the total is within budget unless only required or protected sections are left |
| `ContextWindowProperties.OrderSorts` | src/deepkeel/context_window.py:410-418 | sections are considered required and protected first, then by tier, then by falling priority |
| `PlacementProperties.SectionsAreRanked` | src/deepkeel/context_window.py:410-418 | written out over the fields of the sections, and stable: sections that agree in all of it keep the order given |
| `ContextWindowProperties.TrimDropsLeastImportantFirst` | src/deepkeel/context_window.py:515-533 | an optional section survives trimming only if all optional sections before it do |
| `ContextWindowProperties.TrimKeepsMandatory` | src/deepkeel/context_window.py:515-533 | trimming never takes a required or protected section |
| `ContextWindowProperties.PinnedSectionIsDroppedExactly` | src/deepkeel/context_window.py:410-534 | a bounded context drops a pinned or protected section if and only if the context does not fit whole and, in its turn, the section has an allowance in which neither its summary nor a cut of its value is left to keep |
| `ContextWindowProperties.MandatoryTextsSurvive` | src/deepkeel/context_window.py:410-534 | with two tokens for each required, pinned or protected section, all of them texts that may cost two, a bounded context drops none of them |
| `ContextWindowProperties.PinnedTextIsDroppedAtOne` | src/deepkeel/context_window.py:428-513 | for every pinned text costing more than one token: a budget of nothing keeps it whole, a budget of one drops it |
| `CutValueProperties.ListItemsFit` | src/deepkeel/context_window.py:733-743 | the items kept of a list cost no more than the budget one by one, and none is empty |
| `CutValueProperties.ItemsAreCutInTurn` | src/deepkeel/context_window.py:733-743 | each item kept is what the room left by those before it leaves of it, and the list ends before the first of which nothing, or nothing that fits, is left |
| `CutValueProperties.NextTextIsCut` | src/deepkeel/context_window.py:733-743 | a text that is the first item over the room, of two tokens or more, comes back cut to the longest prefix that fits it |
| `CutValueProperties.EntriesAreCutInTurn` | src/deepkeel/context_window.py:744-761 | each entry of a dictionary adds its key with what the room left leaves of its value, if that is anything and fits; entries that do not fit are passed over, and nothing is added from a key on that alone uses up the room |
| `CutValueProperties.PrefixStaysWhole` | src/deepkeel/context_window.py:733-743 | of every list the items that fit one after the other come back whole, in front of what is left of the others |
| `CutValueProperties.CutListFitsExactly` | src/deepkeel/context_window.py:726-743 | for every list whose first item that does not fit is a number, a boolean, empty, or given at most one token as a text, exactly the items before it come back, and they are within budget if and only if the whole list is, there are none, or rounding and the room they leave pay for brackets and commas |
| `CutValueProperties.CutListOverrun` | src/deepkeel/context_window.py:726-743 | for every list and positive budget what comes back exceeds the budget by at most a quarter of it, one token, and a quarter token for each quote and escape of its texts |
| `CutValueProperties.FittingListFitsExactly` | src/deepkeel/context_window.py:733-743 | a list whose items fit one by one comes back whole, and is within budget exactly under that condition on the list itself |
| `CutValueProperties.CutListStaysOverBudget` | src/deepkeel/context_window.py:733-743 | two one-token numbers in a budget of two come back as a list that costs three |
| `CutValueProperties.EntriesFit` | src/deepkeel/context_window.py:744-761 | the entries kept of a dictionary cost no more than the budget, keys and values counted one by one |
| `CutValueProperties.EntriesStayWhole` | src/deepkeel/context_window.py:744-761 | of every dictionary the entries that fit one after the other come back whole, in front of what is left of the others |
| `CutValueProperties.CutDictionaryFitsExactly` | src/deepkeel/context_window.py:744-761 | for every dictionary whose entries all fit or are stopped by a key, exactly the entries before the stop come back, and they are within budget if and only if the whole is, there are none, or rounding and the room they leave pay for punctuation and quotes |
| `CutValueProperties.FittingDictionaryFitsExactly` | src/deepkeel/context_window.py:744-761 | a dictionary whose entries fit one by one comes back whole, and is within budget exactly under that condition on the dictionary itself |
| `CutValueProperties.CutDictionaryOverrun` | src/deepkeel/context_window.py:744-761 | for every dictionary and positive budget what comes back exceeds the budget by at most half of it, one token, and a quarter token for each escape of its keys and each quote and escape of its texts |
| `CutValueProperties.CutDictionaryStaysOverBudget` | src/deepkeel/context_window.py:744-761 | one two-token entry in a budget of two comes back as a dictionary that costs four |
| `CutValueProperties.CutDictionaryKeepsOrder` | src/deepkeel/context_window.py:744-761 | what is left of a dictionary has keys of the dictionary in its order |
| `AnswerParts.SuffixPrefixOverlap` | src/deepkeel/graph_workflow.py:172-177 | the downward search finds the longest text within the limit that ends one part and begins the next |
| `AnswerParts.MergeAnswerParts` | src/deepkeel/graph_workflow.py:161-169 | the loop joins the parts as the specification does, leaving out repeated text |
| `AnswerParts.MergeKeepsEveryPart` | src/deepkeel/graph_workflow.py:161-169 | no text is lost: what earlier parts gave stays in front and every part ends where the parts up to it end |
| `AnswerParts.JoinOmitsWhatIsRepeated` | src/deepkeel/graph_workflow.py:161-177 | a part is joined without exactly the longest text, up to 1200 characters, in which what there is ends and it begins |
| `GraphExecution.NodeExecution.RunModelNode` | src/deepkeel/graph_model_execution.py:101-154 | a model visit of a run that is ready ends it, leaves it waiting for the user, hands calls to the tools or asks again, the last two with fewer attempts left; events are only appended; it completes only if policy, hooks and all guardrails allow it |
| `GraphExecution.NodeExecution.Settle` | src/deepkeel/graph_model_execution.py:674-702 | a settled turn leaves the run in one of those four ways without regaining an attempt, and completes it only if the turn is allowed prose that is neither blank nor cut off; the lemmas of AgentTransitions say which way and with what |
| `GraphExecution.NodeExecution.Finalize` | src/deepkeel/graph_model_execution.py:704-762 | finalizing likewise; the run is completed only on an answer that policy, hook and guardrail let through |
| `GraphExecution.NodeExecution.HandleTruncated` | src/deepkeel/graph_workflow.py:64-147 | the model is asked to go on exactly while steps and two continuations allow it; otherwise the run has failed for the truncated response, nothing left pending |
| `GraphExecution.NodeExecution.HandleEmpty` | src/deepkeel/graph_workflow.py:180-261 | the model is asked for an answer exactly while steps and one retry allow it; otherwise the run has failed for the empty response, nothing left pending |
| `GraphExecution.NodeExecution.Repair` | src/deepkeel/graph_workflow.py:334-413 | the model is asked for a repair, which is counted, exactly while the limit allows it; otherwise the run has failed on the violated contract, nothing left pending |
| `GraphExecution.NodeExecution.RunToolsNode` | src/deepkeel/graph_nodes.py:147-238 | the tools node applies its results one by one, spends calls and grants, and sets the status from what is pending |
| `GraphExecution.NodeExecution.ResumeRun` | src/deepkeel/graph_state.py:542-647 | resuming leaves nothing pending and a run that is ready for the model, with its steps and all events |
| `GraphExecution.NodeExecution.ResumeConfirmation` | src/deepkeel/graph_state.py:660-743 | answering a policy confirmation leaves no action or task pending and goes on with the tools exactly if it was confirmed and defers a call, else with the model |
| `GraphExecution.NodeExecution.RunNode` | src/deepkeel/graph.py:274-307 | one node keeps the invariant of the whole graph and all events; while the run works on, a model visit uses up an attempt and a batch of tools none; a state is refused exactly at the user's wait with a task pending too |
| `AgentGraphProperties.ModelStepSettles` | src/deepkeel/graph_model_execution.py:101-154 | a model visit ends the run, waits for the user, hands calls to the tools or asks again, and the last two use up a step or a repair |
| `AgentTransitions.CallsAreHandedOver` | src/deepkeel/graph_model_execution.py:536-583 | a turn with calls that is let through hands all of them to the tools, in its order or as the entry point restates them with the same set, and the log ends with the assistant's message and exactly these calls; unless the activation is refused, and the run has failed |
| `AgentTransitions.VisitWithoutTheProvider` | src/deepkeel/graph_model_execution.py:101-154 | a visit that does not ask the provider leaves exactly this state: at the step limit a repair if one is under way and left, else a failure; by the hook or the guardrail on the input a failure or a wait |
| `AgentTransitions.WithheldTurn` | src/deepkeel/graph_model_execution.py:108-116 | a turn withheld by the guardrail on output leaves no message and no step, and the run failed or waiting |
| `AgentTransitions.CutOffTurn` | src/deepkeel/graph_workflow.py:64-147 | the whole state after a turn cut off by the output limit: the message, the part, and the prompt to go on within two continuations and the steps, or the failure |
| `AgentTransitions.EmptyTurn` | src/deepkeel/graph_workflow.py:180-261 | the whole state after an empty turn: no message, and the prompt to answer within one retry and the steps, or the failure |
| `AgentTransitions.AnswerTurnedDown` | src/deepkeel/graph_workflow.py:264-413 | an answer the policy does not accept has the run wait for the user exactly under the skill's seven conditions, and otherwise repaired or failed |
| `AgentTransitions.AnswerAccepted` | src/deepkeel/graph_model_execution.py:704-762 | the whole state after an accepted answer: fulfilled workflow, nothing to continue, and the end, the wait or the joined text that hook and guardrail leave |
| `AgentTransitions.CompletedExactly` | src/deepkeel/graph_model_execution.py:704-762 | a visit completes the run if and only if the provider is asked and answers in prose that is not cut off, and policy, hooks and guardrails all allow it |
| `AgentTransitions.ToolsAreCalledExactly` | src/deepkeel/graph_model_execution.py:696-702 | a visit hands calls to the tools if and only if the provider is asked, its turn is let through and has calls, and the entry point does not refuse them |
| `AgentGraphProperties.EveryRunIsSafe` | src/deepkeel/graph_workflow.py:31-61 | in every run: events numbered from one without gaps; the end is reached exactly with a final answer, completed or failed, no call pending and one terminal event; waiting runs have what they wait for |
| `AgentGraphProperties.RunKeepsInv` | src/deepkeel/graph_workflow.py:523-546 | the invariant of all nodes holds after any inputs, and events are only ever appended |
| `AgentGraphProperties.SegmentIsBounded` | src/deepkeel/graph_model_execution.py:128-154 | between two suspensions the model is visited at most as often as steps and repairs are left, and once more, with at most one batch of tools between visits |
| `AgentGraphProperties.TurnsAreCounted` | src/deepkeel/graph_model_execution.py:470-514 | over a whole run every provider call counts as a step unless its turn is withheld, so calls never exceed the step limit plus withheld turns |
| `AgentGraphProperties.StepsBoundCallsWithoutApprovals` | src/deepkeel/graph_model_execution.py:470-514 | where the guardrail on model output never asks for approval, a run calls the provider no more often than there are steps left |
| `AgentGraphProperties.ApprovalsLiftTheLimit` | src/deepkeel/model_execution_safety.py:123-159 | for every number of calls there is a run limited to one step, without recorded invocations, that makes that many provider calls |
| `AgentGraphProperties.RefusalNeedsTwoSuspensions` | src/deepkeel/graph_state.py:66-91 | a state is refused only at the user's wait, exactly when one batch suspended the run both for the user and for background work |
| `AgentGraphProperties.ToolStepEffect` | src/deepkeel/graph_nodes.py:147-238 | after the tools node the run waits for the user or for a task exactly when some result asks for it, and calls and their grants are spent |
| `AgentTransitions.BatchIsApplied` | src/deepkeel/graph_nodes.py:147-238 | the whole state after a batch of tools: each call that has ended is answered in the log, in order, and no other; calls and grants are spent; the last result that suspends the run decides what it waits for, the user first |
| `AgentGraphProperties.ResumeClears` | src/deepkeel/graph_nodes.py:240-289 | resuming clears what was pending and goes to tools exactly with the deferred call of the action, else to the model |
| `AgentTransitions.RunIsResumed` | src/deepkeel/graph_state.py:542-647 | the whole state after a resumption: what the model is told, the questions counted, and the repairs used up by a failed task |
| `AgentTransitions.UserIsAnswered` | src/deepkeel/graph_state.py:660-743 | a policy confirmation that is confirmed grants its id and hands exactly the deferred call to the tools; otherwise its call is answered and none is left; whatever else waits is resumed |
| `AgentGraphProperties.CompletedMeansAllowed` | src/deepkeel/graph_model_execution.py:704-762 | a run completes only on prose that the completion policy, the answer hook and all guardrails let through |
| `AgentGraphProperties.DeliveredAnswerIsWhole` | src/deepkeel/graph_workflow.py:150-158 | the delivered answer is the parts gathered from truncated turns joined with the last turn, unless rewritten by hook or guardrail |
| `AgentGraphProperties.CutOffTurnIsContinued` | src/deepkeel/graph_workflow.py:64-147 | a truncated turn adds its text once and the model is asked again exactly within two continuations and the step limit |
| `AgentGraphProperties.EmptyTurnLeavesNoMessage` | src/deepkeel/graph_model_execution.py:688-695 | an empty turn leaves no assistant message, only the prompt to answer if the model is asked again |
| `AgentGraphProperties.BlankAnswersAreNotFinalized` | src/deepkeel/graph_model_execution.py:704-710 | the failure for an answer without usable content cannot occur |
| `AgentGraphProperties.FailedTaskForbidsRepair` | src/deepkeel/graph_state.py:629-635 | after a failed background task no model visit of the rest of the run is granted a repair by a skill with the same limit |
| `AgentGraphProperties.ConfirmationIsSpent` | src/deepkeel/graph_nodes.py:217-226 | a confirmation's grant is gone after the call it released, unless the action was filed under another id |
| `Leases.LeaseStore.ClaimScoped` | src/deepkeel/leases.py:98-131 | a claim is granted with the next generation unless a live lease exists, and refused on the errors of the source |
| `Leases.LeaseStore.RenewLease` | src/deepkeel/leases.py:133-156 | a renewal moves only the expiry of the live lease with the same token and generation |
| `Leases.LeaseStore.ReleaseLease` | src/deepkeel/leases.py:158-166 | a release removes the lease with the same token and generation, does nothing if there is none, and refuses another's |
| `Leases.LeaseStore.InspectScoped` | src/deepkeel/leases.py:171-178 | inspection shows the unexpired lease under exactly the key given |
| `Leases.LeaseGuard.Heartbeat` | src/deepkeel/leases.py:251-265 | a heartbeat renews or loses the lease; a loss is remembered for good, and token and generation never change |
| `LeaseProperties.LeasesTakeTurns` | src/deepkeel/leases.py:98-178 | under any requests and a clock that does not run back, leases of a run have generations 1, 2, 3 and at no moment are two valid |
| `LeaseProperties.ClaimIsGrantedExactly` | src/deepkeel/leases.py:98-131 | whatever went before, a claim is granted if and only if ids are not blank, the time is positive and the run's last lease is released or has expired; then it is the next generation from now; and each refusal is the right one |
| `LeaseProperties.RenewalIsGrantedExactly` | src/deepkeel/leases.py:133-156 | a renewal is granted if and only if the time is positive and the lease is the one that holds the run, and moves its expiry alone |
| `LeaseProperties.ReleaseFreesTheRun` | src/deepkeel/leases.py:158-166 | the release of the lease kept for a run frees it from then on; another's is refused and changes nothing |
| `LeaseProperties.LeaseIsSeenExactly` | src/deepkeel/leases.py:171-178 | a lease is seen under an id exactly while the run is held under just that id |
| `LeaseProperties.LeasesKeepIdentity` | src/deepkeel/leases.py:133-156 | later requests never change a lease's token, generation, owner, run or time of acquisition, nor anything of a released lease |
| `LeaseProperties.SupersededLeasesChangeNothing` | src/deepkeel/leases.py:133-166 | neither renewal nor release with a superseded lease changes the store |
| `LeaseProperties.ShorterRenewalsOverlap` | src/deepkeel/leases.py:133-156 | an older copy of a lease outlives the next takeover if and only if the renewal moved the expiry forward |
| `LeaseProperties.ClaimIsSeen` | src/deepkeel/leases.py:98-178 | a lease just claimed is seen under its run id if and only if the id has no blanks around it |
| `ModelInvocations.InvocationStore.ClaimInvocation` | src/deepkeel/model_invocations.py:203-256 | a claim acquires, replays, reports failure, progress or uncertainty, or conflicts, as the record says |
| `ModelInvocations.InvocationStore.Settle` | src/deepkeel/model_invocations.py:293-329 | settling needs the claim's token, is idempotent for the same result and otherwise refused |
| `ModelInvocations.AcquiredOnce` | src/deepkeel/model_invocations.py:203-256 | whatever the store has been through, after the first claim no later claim acquires the invocation, and once completed the same request is replayed the recorded result |
| `ModelInvocations.ApplyAllPersists` | src/deepkeel/model_invocations.py:293-329 | no sequence of operations removes a record, changes its request or alters a settled one |
| `InvocationHistory.RecordsFollowHistory` | src/deepkeel/model_invocations.py:203-329 | after any operations on an empty store a record is exactly what the first claim of its invocation and the first settlement under that claim's token make it |
| `InvocationHistory.ClaimFollowsHistory` | src/deepkeel/model_invocations.py:203-256 | what a claim is told, from the operations before it: it acquires if and only if it is the first; otherwise conflict, the result or failure that settled it, progress while the first claim lasts, and uncertainty from then on |
| `InvocationHistory.SettlementFollowsHistory` | src/deepkeel/model_invocations.py:293-329 | what a settlement is told, from the operations before it: exactly the first claim's token settles, the same result is accepted again, and everything else conflicts and changes nothing |
| `ModelInvocations.ProviderIsCalledAtMostOnce` | src/deepkeel/model_step_execution.py:176-246 | for any workers, interleaving and crashes the provider is called at most once for an invocation, its recorded result is what it answered, and all workers that finish return that |
| `ModelInvocations.ExpiredIsNotRetried` | src/deepkeel/model_invocations.py:232-241 | an invocation whose claim expired without a result turns later workers away without a call |
| `ModelInvocations.HolderSettles` | src/deepkeel/model_step_execution.py:214-240 | the worker that holds the claim is never refused when it settles |
| `InvocationHistory.FirstWorkerFinishes` | src/deepkeel/model_step_execution.py:176-246 | a worker that claims first and is answered has called the provider once, recorded the turn, and returns it |
| `InvocationHistory.FirstWorkerFails` | src/deepkeel/model_step_execution.py:176-246 | one whose provider fails has recorded that failure, and raises |
| `InvocationHistory.RejectedTurnFails` | src/deepkeel/model_step_execution.py:176-246 | a turn that is not accepted is recorded as that failure, and the worker raises |
| `InvocationHistory.WorkerIsTurnedAway` | src/deepkeel/model_step_execution.py:176-246 | a worker told of a conflict, a failure, progress or uncertainty raises, without a call and without changing anything |
| `InvocationHistory.LaterWorkerReplays` | src/deepkeel/model_step_execution.py:176-246 | a worker that comes after completion returns the recorded turn without a call, and is turned away with another request |
| `CapabilityManifest.ValidateManifestSet` | src/deepkeel/capability_manifest.py:323-370 | there is no issue if and only if ids are distinct, every capability has one owner, dependencies are present in a fitting version and handoffs are declared tools; every issue reported is real, and every one there is is reported |
| `CapabilityManifest.ClosedPartIsValid` | src/deepkeel/capability_manifest.py:323-370 | validity survives restriction to manifests that contain all they require |
| `CapabilityManifest.ValidSetIsOrderless` | src/deepkeel/capability_manifest.py:323-370 | validity does not depend on the order of the manifests |
| `DependencyOrder.CollectDependencies` | src/deepkeel/conformance.py:429-448 | the worklist ends with exactly the reachable packages that are supplied, once each, and exactly those that are missing |
| `DependencyOrder.OrderDependencies` | src/deepkeel/conformance.py:425-472 | the order has each reachable dependency once after all it requires; otherwise exactly the missing ones, or exactly those that lead to a circle, are reported; the order depends only on what is supplied under each id |
| `DependencyOrder.LastIsSupplied` | src/deepkeel/conformance.py:425-432 | what is supplied under an id is the manifest that comes last, unless the id is the root's |
| `DependencyOrder.ArrangeIsOrderless` | src/deepkeel/conformance.py:449-472 | the rounds give the same order whatever the order in which packages were found |
| `CapabilityControl.PackageStore.Save` | src/deepkeel/capability_control.py:110-127 | a save succeeds only on the revision it was based on, and raises it by one |
| `CapabilityControl.PackageManager.Install` | src/deepkeel/capability_control.py:139-149 | installing adds a record unless one is found under the stripped id, and saves only a valid enabled set |
| `CapabilityControl.PackageManager.Upgrade` | src/deepkeel/capability_control.py:157-176 | an upgrade needs an installed package and a higher version |
| `CapabilityControl.PackageManager.Rollback` | src/deepkeel/capability_control.py:178-208 | a rollback takes the latest entry of the history, or the first of the version asked for |
| `CapabilityControl.PackageManager.Reconcile` | src/deepkeel/capability_control.py:220-266 | reconciliation handles each record in turn, installs what is left, and saves only if something changed |
| `CapabilityControlProperties.EveryCatalogIsSound` | src/deepkeel/capability_control.py:348-376 | every catalog that racing managers can bring about has distinct sorted ids, a valid enabled set, one generation for each revision and the latest of them active |
| `CapabilityControlProperties.ResultKeepsInv` | src/deepkeel/capability_control.py:348-376 | every operation keeps that invariant and changes at most one revision, whose generation is appended |
| `CapabilityControlProperties.NoUpdateIsLost` | src/deepkeel/capability_control.py:110-127 | the catalog is what the saved operations make one after the other, and its revision counts them |
| `CatalogOutcomes.InstallIsDecidedExactly` | src/deepkeel/capability_control.py:139-149 | an installation is accepted if and only if nothing is listed under the id without blanks and the set then enabled is valid; it saves the records there were and the new one, by id, as the next revision and generation |
| `CatalogOutcomes.FlagIsSetExactly` | src/deepkeel/capability_control.py:292-305 | setting a flag that is set changes nothing; otherwise exactly the flag and its time are saved, if the set then enabled is valid |
| `CatalogOutcomes.UpgradeIsDecidedExactly` | src/deepkeel/capability_control.py:157-176 | an upgrade is refused for the same version or one not newer; otherwise the old manifest joins the history as its last |
| `CatalogOutcomes.RollbackIsDecidedExactly` | src/deepkeel/capability_control.py:178-208 | a rollback takes the last entry, or the first of the version asked for, out of the history, which the manifest given up joins as its last |
| `CatalogOutcomes.NothingToGoBackTo` | src/deepkeel/capability_control.py:178-208 | without such an entry it is refused, with the error of each case |
| `CatalogOutcomes.UninstallIsDecidedExactly` | src/deepkeel/capability_control.py:210-218 | an uninstall leaves out the record of exactly the id given, blanks and all, and no other, if the rest is valid |
| `CatalogOutcomes.UnlistedIsRefused` | src/deepkeel/capability_control.py:139-218 | flags, upgrades, rollbacks and uninstalls of an id that is not listed are refused |
| `CapabilityControlProperties.OneOfTwoSaves` | src/deepkeel/capability_control.py:110-127 | of two managers on the same catalog at most one saves, whatever happens in between |
| `CapabilityControlProperties.SetEnabledChangesOneFlag` | src/deepkeel/capability_control.py:292-305 | enabling and disabling change one flag of one record |
| `CapabilityControlProperties.UpgradeChangesOneRecord` | src/deepkeel/capability_control.py:157-176 | an upgrade replaces one manifest by a newer one and adds exactly that one to the record's manifests |
| `CapabilityControlProperties.RollbackChangesOneRecord` | src/deepkeel/capability_control.py:178-208 | a rollback brings back a manifest of the history, of the version asked for, and keeps all manifests of the record |
| `CapabilityControlProperties.RollbackTwiceRestores` | src/deepkeel/capability_control.py:178-208 | a second default rollback is always accepted and restores every record, times apart |
| `CapabilityControlProperties.ReconcileKeepsHoldings` | src/deepkeel/capability_control.py:307-346 | reconciling a record adds a manifest exactly when it upgrades, and never loses one |
| `CapabilityControlProperties.ReconcileIsIdempotent` | src/deepkeel/capability_control.py:220-266 | reconciling again with the same manifests, at any time, changes nothing, not even the revision |
| `CapabilityControlProperties.ReconcileActivatesDesired` | src/deepkeel/capability_control.py:220-266 | after a reconciliation that disables the rest, the enabled manifests are exactly the desired ones |
| `ReconciliationProperties.ReconcileAcceptedExactly` | src/deepkeel/capability_control.py:220-266 | a reconciliation is accepted if and only if the manifests asked for are valid by themselves, every record may take the one under its id (its own, a newer version, or one of its history), and the set then enabled is valid |
| `ReconciliationProperties.ReconcileNeedsOnlyRecords` | src/deepkeel/capability_control.py:220-266 | with the rest disabled a valid desired set is accepted if and only if every record may take its manifest; the set it makes is never turned down |
| `ReconciliationProperties.GoesThroughExactly` | src/deepkeel/capability_control.py:307-346 | the loop over the records gets through if and only if each may take what is asked of it |
| `ReconciliationProperties.ReconciledCatalogExactly` | src/deepkeel/capability_control.py:220-266 | after an accepted reconciliation the catalog is exactly: each record there was, having taken the manifest asked for under its id, or stayed, or been disabled; and a new record for each manifest that had none |
| `ReconciliationProperties.ReconcileRefusedFor` | src/deepkeel/capability_control.py:220-266 | each refusal of a reconciliation has its reason: ids given twice, a set that is not valid, the first record that may not take its manifest (changed under its version, or neither newer nor of the history), or the set then enabled |
| `CapabilityControlProperties.InstallKeepsIdsDistinct` | src/deepkeel/capability_control.py:139-149 | an accepted installation keeps ids distinct if and only if the id was not listed before |
| `CapabilityControlProperties.PaddedIdInstallsTwice` | src/deepkeel/capability_control.py:43-52 | every manifest with blanks around its id can be installed twice |
| `CapabilityControlProperties.UninstallRemoves` | src/deepkeel/capability_control.py:210-218 | an accepted uninstall removes the package if and only if its id has no blanks around it |
| `CapabilityControlProperties.DependenciesInstallInOrder` | src/deepkeel/conformance.py:416-422 | a set of manifests valid as a whole installs into an empty catalog in dependency order, every single step being accepted |
| `DependencyInstallation.InstallDependencies` | src/deepkeel/conformance.py:416-422 | nothing is installed exactly when the dependencies cannot be ordered; into an empty catalog dependencies valid as a whole all go in, and the enabled manifests are then exactly the reachable ones |
| `Budget.BudgetLedger.Consume` | src/deepkeel/budget.py:190-225 | a request is decided and recorded as the specification says, a repeated operation getting its first decision |
| `Budget.BudgetLedger.Restore` | src/deepkeel/budget.py:231-248 | the loop of a restoration takes the larger amount of each metric |
| `Budget.ConsumeMeetsPreview` | src/deepkeel/budget.py:266-282 | a first request is decided and charged exactly as previewed, and nothing else changes |
| `Budget.RequestIsDecidedExactly` | src/deepkeel/budget.py:190-225 | a first request is turned down if and only if it names a positive limit and would pass it, so that one that exactly reaches it is allowed; with what is used and left |
| `Budget.WithinLimitsAllIsAllowed` | src/deepkeel/budget.py:190-225 | over any calls, requests that together stay within the limits they name are all allowed |
| `Budget.RepetitionIsFree` | src/deepkeel/budget.py:190-225 | a repeated operation gets the first decision and is not charged, whatever it asks for |
| `Budget.UsageIsTheTotalAllowed` | src/deepkeel/budget.py:190-225 | over any calls, usage of a summed metric is the total of the allowed amounts, each operation once |
| `Budget.LimitHolds` | src/deepkeel/budget.py:190-225 | usage that starts within a positive limit never passes it |
| `Budget.RestoreIsAMaximum` | src/deepkeel/budget.py:231-248 | restoring is an idempotent, order-independent pointwise maximum that lowers nothing |
| `Budget.RestoredLedgerChargesAgain` | src/deepkeel/budget.py:231-248 | a new ledger restored from a snapshot counts every summed amount without a limit twice |
| `Budget.RestoredLedgerChargesAgainExactly` | src/deepkeel/budget.py:231-248 | an operation charged before a restoration is charged again if and only if it adds a positive amount to a sum and still fits its limit |
| `Budget.ReplayChargesTwiceExactly` | src/deepkeel/budget.py:231-248 | when all requests of a run are made again after a restoration, exactly those are charged twice that are no repetition, add a positive amount to a sum and still fit, and each of them was charged the first time |
| `Budget.ClearForgetsOneRun` | src/deepkeel/budget.py:250-255 | clearing forgets one run's usage and operations and nothing else |
| `Guardrails.GuardrailRunner.RunGuardrails` | src/deepkeel/guardrails.py:268-351 | the loop over guardrails replays, calls, stores and stops as the specification does; RunGoesTo and RunAbortsExactly say how far it goes and when it is aborted |
| `GuardrailOutcomes.RunAbortsExactly` | src/deepkeel/guardrails.py:268-351 | a run is aborted if and only if, in its order, some guardrail is required, has nothing stored and fails, before any that blocks or asks for approval; the abort names the first such, and exactly the decisions before it are kept |
| `GuardrailOutcomes.RunGoesTo` | src/deepkeel/guardrails.py:268-351 | a run goes exactly to the first guardrail that ends or breaks it; exactly the handlers reached for which nothing is stored are called, and their decisions stored |
| `GuardrailOutcomes.MergeTakes` | src/deepkeel/guardrails.py:390-421 | of two decisions the stronger action is taken, and else what the later says unless it says nothing; entries of both, the later first; redactions of both, stripped, once each |
| `Guardrails.MergeIsAssociative` | src/deepkeel/guardrails.py:390-421 | merging decisions is associative, redactions included |
| `Guardrails.AllowanceIsNeutral` | src/deepkeel/guardrails.py:390-421 | the plain allowance is neutral on both sides |
| `Guardrails.RunDecides` | src/deepkeel/guardrails.py:268-351 | the decision of a run is the merge of what the guardrails of its stage and scope decide, by priority and id, up to the first that ends it; it blocks or asks for approval if and only if one of these decisions does |
| `Guardrails.RunsInOrder` | src/deepkeel/guardrails.py:268-277 | the guardrails of a run are those of its stage and scope, by priority and id |
| `GuardrailOutcomes.RunsByPriority` | src/deepkeel/guardrails.py:268-277 | the same written out over stage, scope and selector, priority and id |
| `Sorting.TextLeExactly` | src/deepkeel/guardrails.py:268-277 | ids are ordered by the first character in which they differ, a prefix coming first |
| `Guardrails.TerminalWins` | src/deepkeel/guardrails.py:411-421 | merging up to the first terminal result blocks or asks for approval if and only if some merged decision does |
| `Guardrails.RunAgain` | src/deepkeel/guardrails.py:268-351 | if no handler failed, running the same operation again calls none and decides the same |
| `Guardrails.RunCallsAgain` | src/deepkeel/guardrails.py:268-351 | after a run in which some handler failed the next run of the operation calls a handler |
| `JsonRepair.RepairTruncatedObject` | src/deepkeel/model_native_provider.py:391-439 | the scan returns the candidate of the specification if it parses, and nothing otherwise |
| `JsonRepair.CandidateIsBalanced` | src/deepkeel/model_native_provider.py:404-434 | reading a candidate ends outside any string with no bracket open |
| `TruncatedJson.RepairRestoresWhatIsLeft` | src/deepkeel/model_native_provider.py:391-439 | for every JSON object, cut off anywhere inside a text or after an item or an entry at any depth: its compact JSON text up to there is completed to the JSON text of the object with all that was complete and the text up to the cut |
| `TruncatedJson.WrongCloserIsRefused` | src/deepkeel/model_native_provider.py:404-427 | text that closes another bracket than the innermost open one is not repaired, whatever follows |
| `TruncatedJson.CutInEscapeIsRefused` | src/deepkeel/model_native_provider.py:404-427 | nor is text cut off in the middle of an escape |
| `TruncatedJson.WholeObjectIsLeftAlone` | src/deepkeel/model_native_provider.py:404-427 | nor the JSON text of a whole value |
| `JsonRepair.CandidateExactly` | src/deepkeel/model_native_provider.py:391-434 | there is a candidate if and only if the text begins with a brace, the error says it just stops, and the scan closes nothing that is not open, does not end in an escape, and leaves a bracket open |
| `JsonRepair.CandidateChangesOnlyTheEnd` | src/deepkeel/model_native_provider.py:404-434 | a candidate is the scanned text, less a trailing comma and all blanks before it exactly if the scan stops outside a string after one, with a quote exactly if it stops inside, and then the closers of the brackets it leaves open, innermost first |
| `JsonRepair.CandidateIsLeftAlone` | src/deepkeel/model_native_provider.py:404-434 | repairing is done once: every candidate is left alone by another repair |

## Left out

- Numbers in JSON values are kept as their literals; only their text matters to the estimates.
- Ids and texts that the runtime converts with `str` are text from the start; truthy `tool_calls` that are not lists count as none.
- The planner that computes the input budget: any budget of at least one is allowed.
- Checkpoints that continue an earlier one and the semantic checkpoint builders: a request makes its checkpoint anew, by the deterministic builder; the fingerprint is an arbitrary function of the messages left out with 64 hexadecimal digits as its value.
- History selection, diagnostics, layers, tiers and segment building of the context window, and its summary cache: the summary in force is part of the section.
- Hooks, guardrails, the model, tools and the completion policy inside the agent graph are arbitrary inputs; execution plans are absent.
- De-duplication and disclosure of tool calls, tool views, observations, artifacts, tool results and discovery counters of a run's state.
- Exceptions of a provider, of cancellation and of deadlines inside a node: the run stops before the node takes effect.
- Streaming deltas and other ephemeral events, which are not recorded.
- Threads, locks, asyncio and LangGraph: a locked method is one step, a node is one transition.
- Clocks, random tokens and hashes are parameters; the generation digest is injective by construction, and so is a request's fingerprint.
- The asynchronous lease guard, which repeats the guard; the heartbeat's timing.
- ApprovalsLiftTheLimit: is about runs whose model invocations are not recorded, because the agent graph leaves out the invocation store, which would turn the repeated call away as a conflict.
- InstallDependencies: all installations bear one time.
- Health records, route payloads and visible deltas of a model attempt; calls without an invocation store.
- Core versions, permissions, migrations and resume compatibility of manifests; `version_satisfies` is an arbitrary function.
- RepairRestoresWhatIsLeft: is about JSON text without blanks between its tokens, cut off inside a text or after an item or an entry; what is made of any other text is said by CandidateExactly and CandidateChangesOnlyTheEnd.
- `RuntimeGenerationManager` and loading of manifests from files.
- Amounts are exact reals: rounding of floating-point sums is not modelled.
- Parsing of a ledger snapshot: amounts that are not numbers, or are negative in a dictionary, are gone before it is restored.
- Audits and the audit sink of guardrails, and how a handler's return value becomes a decision.
- Hooks, entry points, migrations, routing, model health, discovery ranking, the event journal and the tool executor, which are simpler relatives of what is modelled or plumbing.
