# Session conversion: a verified model

A conversion reads an agent session into an ordered list of events, fits it into a context budget, writes it out for
another agent, reads it back and compares. This project models the parts of that path, and of the tools around it, that
decide what is kept, what is lost and what is said about it, and proves what those decisions guarantee.

- **The comparator** (`Compare`, on `Ledger`, `Matching`, `Tallies`, `Reduce`, `Sums`; what it reads of an event is `Content`): three passes over position queues
  and counting ledgers, proved to produce a report that is defined without them. `CompareClean` says exactly when a report
  is clean, `CompareStray` says it in bags alone, `CompareAdded` and `CompareExempt` say what its count of added
  events means, `CompareAccounts` that its books balance and what its best grade certifies, `CompareKinds` which losses it names, `CompareSelf` what it says of a
  replay compared with itself and of small cases.
- **The context budget** (`Budget`, on `Pairing`, `Elision`): a `keep` array cleared in place. `BudgetProofs` gives the set of
  survivors in closed form and compares the knobs, `BudgetBytes` puts the cap in bytes, `BudgetPairs` shows that survivors keep their partners, `BudgetAccounts` proves the
  report complete and says when a second pass has nothing left to do, `BudgetCompare` sets the budget against the comparator.
- **The request stream** (`LineReader`, `Broker`): a bounded line reader over a source that hands out chunks as it pleases.
- **The listing cache** (`Listing`, `ListingRuns`, `ListingScan`): the table and its write-back, a state machine of any
  number of listings over files that grow meanwhile, and one listing from end to end.
- **The replay closure check** (`Closure`, `ClosureFindings`): what each finding means, and what a session without any is known
  to satisfy.
- **Two shell printers** (`PosixShell`, `Launch`, `Overlay`, `Shlex`, `ShellsAgree`, `Adapter`, `Rewrites`): a launch script and a rewritten command,
  read back by the quoting rules of sections 2.2.1 to 2.2.3 of the POSIX.1-2017 Shell Command Language, and by the gate's
  own parser.

`dafny verify dfyconfig.toml` checks everything.

## How the code is represented

- A Rust local behind `&mut` (the hash tables of the comparator, the tally lists) is a value that a method takes and
  returns. `keep: &mut [bool]` is an array changed in place, and so is the event list that truncation rewrites. `Dropped`,
  the listing cache, the gathered lists of a listing, the byte source and the response sink are classes.
- `digest` is taken to be injective and is modelled as the identity on the text it hashes. `serde_json` is a parameter
  (`Serde`): how a body and a value print, and which text parses. What needs prints to tell bodies apart as far as they are
  read says so (`PrintsTellContent`); a library that prints an absent value and a `null` alike does (`UpToNullTellsContent`),
  though it does not tell all bodies apart (`NullCompanionIsNotSeen`). The serialised length the budget charges for is a
  parameter too (`Measure`).
- Rust integers are naturals. `saturating_sub` is written out (`Monus`). Text is a sequence of Unicode scalar values with
  its UTF-8 length computed (`ByteLen`).
- The order in which a hash table yields its keys is left open: `RepairPairing` and `ListingCache.Load` pick any next key.
- The comparator sorts its tallies by bucket and kind name; since each pair occurs once, the model lists them in name order.
- A reader's chunk sizes, read and write failures, the growth of files between two system calls and the interleaving of
  listings are nondeterministic.
- A lemma proved by induction carries `{:induction false}`: its hypothesis is used where the lemma calls itself, and nowhere else.
- UTF-8 decoding, the request parser, the profile's virtual commands and a session file's parser are parameters.

## Where the code and its comments differ

The model follows the code. Each of these is a lemma.

- `src/budget.rs:156-162` says the newest event is always kept and a budget never returns nothing. Pairing repair can remove
  the newest event: `BudgetCanKeepNothing` returns an empty replay, `NewestSurvivesIff` and `KeepsNothingIff` say
  exactly when the newest survives and when nothing does.
- `src/budget.rs:129-134` puts truncation first to spare whole turns. Elision adds a marker, so an observation slightly over
  the limit grows and can push an event out: `ElisionShortensIff`, `DearerElisionLosesAnEvent`, `TruncationIsSafeAtIff`,
  `TruncationIsSafeIff`.
- `src/budget.rs:450-452` has the budget's kinds of removal follow the comparator's. For a message with an image or a
  document they do not (`DropKindsAgreeIff`); the grades, which is what matters there, agree all the same (`DropGradesAgree`, `MissingCostsTheSame`).
- `src/compare.rs:706-715` says freeform arguments coerced to an object compare equal. They do not when the text is some
  other JSON value that prints differently, such as an array: `CoercionKeepsTheCall`, `CoercionMissesAnArray`.
- `src/compare.rs:316-319` looks through the whole file for the capsules of an event without a counterpart, so that one that
  survived a reshaping is not called a loss. An unmatched event with nothing to read is filed as damage all the same as soon
  as one capsule is of the target's vendor, found or not: `BareEventIsUnexplained`, `FoundHuskIsUnexplained`.
- `src/compare.rs:150` and `:426-428` take what an added event says to be new, as no event of the source has drawn on it. A sealed
  context whose capsules are all foreign claims nothing when it is unmatched, so its own text, written elsewhere, is counted
  as added: `ReorderedSealedIsAdded`. `AddedIsNewIff` says for which sources the comment holds, `AddedIsNewOrExempt` what
  holds for all.
- `src/compare.rs:539-543` has a reshaping graded better than a deletion. Reasoning is the exception: gone it is
  `ContextNoReasoning`, reshaped it is `ConversationOnly`, which ranks worse (`ReshapingIsNoWorseIff`).
- `src/environment_runtime.rs:944-946` says a malformed request is answered. A line that is not UTF-8 is passed over like a
  blank one, and a line whose text is exactly at the limit is over it once its newline is counted: `AnsweredIff`.
- `src/listing_cache.rs:14-19` says a rewritten file is read again because its mtime changed. The growth rule looks at sizes
  only, so a file rewritten at the same length is answered from its old row: `AnswersIff`, `RewriteGoesUnnoticed`.
- `src/listing_cache.rs:280-284` says touching keeps a row that is read alive. A listing stores, and so prunes, before it
  touches: a row older than a month is answered from and dropped by the same run (`ReusedSurvivesIff`, `KeptAliveIff`).
- `src/conformance.rs:229-248` describes the unclassified events as the ones recorded as not visible. The check only counts
  them: `NamedOthersCount`, `SplitsExactlyIff`, `WrongExclusionPasses`.
- `scripts/agent_env_adapter.py:527-528` says quoted data is ignored. Inside single quotes the scanners still take a
  backslash as an escape, which a shell does not: `BackslashedQuoteIsRefused`; `ReplacementParsesIff` says which outputs
  are affected.

## Model

| member | source | states |
|---|---|---|
| Ledger.Counted | src/compare.rs:851-857 | the table it builds stands for the multiset of its input |
| Ledger.Take | src/compare.rs:884-892 | one occurrence is spent, and reported found, exactly when the multiset still holds one |
| Ledger.TakeAll | src/compare.rs:406-411 | every key is spent; all are found exactly when the ledger held the whole bag of them |
| Ledger.Queued | src/compare.rs:860-866 | each queue lists, in order, all positions of its key |
| Ledger.TakeAfter | src/compare.rs:875-881 | although it looks only at the front of one queue and throws stale positions away, it finds the earliest occurrence at or after `from` in the whole target, and keeps the queues complete from there on |
| Matching.MatchStep | src/compare.rs:286-294 | one step of pass one agrees with the queue-free definition of the matching |
| Matching.MatchesIncrease | src/compare.rs:282-289 | matched positions strictly increase, so no target event answers for two source events |
| Matching.StaysAhead | src/compare.rs:286-294 | greedy matching stays at or behind every order-preserving embedding |
| Matching.MatchesAllIffSubsequence | src/compare.rs:252-259 | every source event is matched if and only if the source shapes are a subsequence of the target shapes |
| Matching.GreedyIsNotLongest | src/compare.rs:282-294 | when not everything matches, the greedy matching can be shorter than the best one |
| Compare.CompareReplays | src/compare.rs:240-478 | the three passes over queues, ledgers and tally lists report exactly what the definition of a comparison, which updates nothing, says |
| Compare.MatchEvents | src/compare.rs:284-294 | pass one yields the matching and leaves the text ledger holding what no matched event spent |
| Compare.Draw | src/compare.rs:313-322 | a capsule is drawn from its own event's ledger or the file's, whichever its vendor and match call for, and the other ledger is untouched |
| Compare.JudgeCapsules | src/compare.rs:304-356 | judging an event's capsules files one finding each, under the verdict on it, and leaves both ledgers holding the rest |
| Compare.SpendText | src/compare.rs:358-424 | an unmatched event is filed as reshaped or as gone exactly as its text is still in the ledger, spending all of it either way |
| Compare.JudgeEvents | src/compare.rs:296-424 | pass two leaves tallies that say what the log of all findings says |
| Compare.CountAdded | src/compare.rs:433-445 | pass three spends every target event's text, claimed or not, and counts the events whose text was unclaimed; `AddedAreSurplus` says which those are |
| Compare.ListLosses | src/compare.rs:447-455 | a bucket's lines are those of its kinds with any event, in name order, with their tallies and grades |
| Compare.MatchingIsOneToOne | src/compare.rs:284-289 | the matching is one to one |
| Tallies.Slot | src/compare.rs:508-515 | finding or pushing a tally changes no other key's tally |
| Tallies.Hit | src/compare.rs:501-524 | filing a finding adds its material and counts its event once, however often the event is filed under the key |
| Tallies.Carry | src/compare.rs:346-354 | the same for foreign carries, with the last event remembered per kind |
| Tallies.EventsAreDistinct | src/compare.rs:296-297 | a tally's event count is the number of distinct events with a finding under its key |
| Reduce.DeletedArgumentIsMissedIff | src/compare.rs:644-665 | a call written without one of its arguments has strictly fewer keys if and only if the argument held anything readable, whatever original text either side keeps |
| Reduce.FromJsonTextKeepsText | src/ir.rs:625-640 | arguments read from a string give the string back, and keep it beside the value only when the value does not print as it |
| Reduce.ConventionIsNormalisedAway | src/compare.rs:717-732 | arguments kept as a JSON string and the same text kept freeform have one substance, whether or not the text parses |
| Reduce.CoercionKeepsTheCall | src/compare.rs:706-733 | a freeform call coerced to an object keeps its substance if and only if its text does not parse, parses as an object, or parses as a value that reads as the text: a scalar printed so, an array whose one readable scalar is the text, or, for a blank text, anything without a readable scalar |
| Reduce.CoercionMissesAnArray | src/compare.rs:709-715 | the text `[1,2]` does not keep it |
| Reduce.DeletedBlockIsMissedIff | src/compare.rs:698-704 | leaving a block out of a message or of a tool result takes keys away if and only if the block had anything to read |
| Content.BlocksAreReadIff | src/compare.rs:640-704 | the keys of a message and of a tool result are exactly, in order, the non-blank texts of its text blocks, addresses of its images and printed values of its documents and unknown blocks |
| Content.CallIsReadIff | src/compare.rs:644-665 | those of a call are its name and then, in order, the readable scalars a walk through its arguments meets, the arguments being parsed from their text where they are text |
| Content.LeavesAreWalked | src/compare.rs:742-773 | the scalars of nested values are the ones a walk with a list of open values meets, in order |
| Content.ReasoningIsReadIff | src/compare.rs:667-677 | those of reasoning are its readable lines, text first |
| Content.OthersAreReadWhole | src/compare.rs:678-697 | any other body is one key, as it prints |
| Content.ItemIsRead | src/compare.rs:627-640 | an event is compared by its printed body, its keys, its capsules and whether it is sealed context |
| Content.GoneIff | src/compare.rs:787-830 | what the loss of an event is called, for each kind of body |
| Content.ReshapedIff | src/compare.rs:787-830 | reshaped it is called the same, but for a message without media |
| Content.FitsVendorIff | src/ir.rs:787-848 | a capsule fits a target exactly when the target's vendor, white space around it and capitals aside, is the issuer of its format |
| TextProofs.IsSpaceIff | src/ir.rs:838-842 | what `trim` takes away: the White_Space of Unicode |
| TextProofs.TrimIff | src/ir.rs:838-842 | trimming yields the text between the white space, or nothing |
| TextProofs.ByteLenIsEncoded | src/budget.rs:399-407 | a length in bytes is the length of the UTF-8 encoding of section 3 of RFC 3629 |
| Reduce.ReasoningIsOnePool | src/compare.rs:667-677 | reasoning text that arrives as a line of the summary is not missed |
| Reduce.NullBlindIff | src/ir.rs:291-294 | what such a library leaves out of a body are its optional fields that hold `null`, and nothing else |
| Reduce.UpToNullTellsContent | src/compare.rs:678-697 | a library that prints two bodies alike exactly when they differ in nothing but `null` for absent prints alike only bodies of one substance |
| Reduce.NullCompanionIsNotSeen | src/compare.rs:252-259 | such a library passes a tool result whose structured companion is `null` for one without |
| Reduce.KindTellsSurvivalIff | src/compare.rs:787-830 | only a message without media is named differently gone and reshaped, and only such a one is ever named conversation |
| Reduce.ReshapingIsNoWorseIff | src/compare.rs:537-576 | a reshaping is graded no worse than a loss for every kind but reasoning, and the same only for sealed context and conversation |
| CompareClean.PassOneMatchesWell | src/compare.rs:278-294 | matched events have equal substance, and matches are in order |
| CompareClean.MatchedTextFits | src/compare.rs:284-294 | all the text spent in pass one is in the target, as a bag |
| CompareClean.LateTextFits | src/compare.rs:406-416 | drawing unmatched events' text one event at a time succeeds throughout if and only if the target holds all of it beyond the matched text |
| CompareClean.LocalDrawsFit | src/compare.rs:268-276 | all same-vendor capsules of a matched event are found if and only if they are a sub-bag of those on the very event it matched |
| CompareClean.EventBuckets | src/compare.rs:298-424 | which events have a finding in which bucket |
| CompareClean.NoDamageIff | src/compare.rs:358-424 | `unexplained` is empty if and only if every readable key of the source (foreign sealed history aside) is in the target as a bag, no unmatched event without content has a same-vendor capsule, found or not, and every same-vendor capsule is in place |
| CompareClean.NothingCarriedIff | src/compare.rs:344-354 | `carried_foreign` is empty if and only if no foreign capsule's bytes are in the file when it is looked for |
| CompareClean.CleanIff | src/compare.rs:180-182 | a report is clean if and only if all of that holds: what a clean report certifies, for every two replays |
| CompareClean.AllMatchedIffInOrder | src/compare.rs:252-259 | every event is matched if and only if the source's bodies occur in the target in order, and then nothing is degraded |
| CompareClean.FirstDrawFound | src/compare.rs:261-267 | bytes the file holds but has run out of were found by an earlier capsule |
| CompareClean.NothingCarriedIffNowhere | src/compare.rs:304-356 | when no same-vendor capsule shares bytes with a foreign one, `carried_foreign` is empty if and only if no foreign capsule's bytes are on any target event |
| CompareStray.StraysFoundIff | src/compare.rs:313-322 | when no same-vendor capsule shares bytes with a foreign one, the same-vendor capsules of unmatched events are all found if and only if the file holds all of them together, as a bag |
| CompareStray.CleanIffConserved | src/compare.rs:180-182 | then what a clean report certifies is a statement about bags and pass one's matching alone, with no ledger in it |
| CompareAdded.AddedAreSurplus | src/compare.rs:426-445 | the count of added events is the number of target events of whose every key the target, up to and with that event, holds no more than what it has over the source, exempt events aside (unmatched sealed context all of whose capsules are foreign) |
| CompareAdded.AddedIsBeyondSource | src/compare.rs:426-432 | all added events together say only what the target says over and above the source, exempt events aside |
| CompareAdded.InventedIsAdded | src/compare.rs:426-432 | an event none of whose keys are in the source, exempt events aside, or earlier in the target is counted |
| CompareAdded.NothingIsAdded | src/compare.rs:426-432 | nothing is counted in a target that says nothing beyond the source, exempt events aside |
| CompareExempt.AddedIsNewOrExempt | src/compare.rs:426-432 | against the whole source, what added events say is new or is an exempt event's text |
| CompareExempt.AddedIsNewIff | src/compare.rs:150-162 | whatever target says no more than the source has no added event, if and only if the source has no sealed context whose capsules are all another vendor's |
| CompareExempt.ReorderedSealedIsAdded | src/compare.rs:388-432 | a sealed context written before the event it followed, without its capsules, is counted as added |
| CompareAccounts.BooksBalance | src/compare.rs:298-356 | every sealed byte of the source, and every capsule holding any, is conserved or in exactly one of predicted, unexplained and carried-foreign; the sums are the source's totals and reshapings hold none |
| CompareAccounts.LossCountsEvents | src/compare.rs:501-524 | a loss's `events` is the number of distinct source events behind it |
| CompareAccounts.CarryCountsEvents | src/compare.rs:346-354 | a foreign carry's `events` is the number of distinct source events with a capsule of its kind that got across |
| CompareAccounts.CompleteIff | src/compare.rs:189-197 | the grade is `ContextComplete` if and only if nothing was predicted lost, degraded or unexplained |
| CompareAccounts.CleanAndCompleteIff | src/compare.rs:180-197 | a report is clean and graded `ContextComplete` if and only if every source event with anything in it is matched, no capsule is foreign, and each event's sealed bytes are on the event it matched |
| CompareAccounts.FidelityIsTheWorst | src/compare.rs:189-197 | the grade is no better than that of any loss in any bucket, and is one of theirs or `ContextComplete` |
| CompareKinds.KindNamedIff | src/compare.rs:298-424 | which kinds of loss each bucket names: a foreign capsule not found is predicted and any other unexplained, under the kind of its format; content that is nowhere is unexplained and content that is elsewhere degraded, under the kind of its event |
| CompareKinds.LineIsGraded | src/compare.rs:551-576 | how the lines of a report are graded |
| CompareKinds.GradesAreOrdered | src/ir.rs:951-999 | the grades from best to worst, and that the worse of two is taken |
| CompareKinds.LostEventIsNamed | src/compare.rs:401-424 | an event without capsules, whose first key a target does not have, is an unexplained loss of its kind and of no other |
| CompareSelf.SelfComparison | src/compare.rs:180-197 | a replay compared with itself: event i matches position i, nothing is lost or added, the grade is the best, and it is clean if and only if no capsule is foreign |
| CompareSelf.SharedBytesHideACarry | src/compare.rs:313-322 | when vendors share bytes a foreign carry can go unreported: two reasoning events of two vendors, one rewritten, and the report has no carry |
| CompareSelf.BareEventIsUnexplained | src/compare.rs:388-424 | an unmatched event with nothing to read and a same-vendor capsule is damage |
| CompareSelf.FoundHuskIsUnexplained | src/compare.rs:316-321 | so a husk reshaped into another with the same capsule is damage, though the capsule was found |
| CompareSelf.DeletedArgumentIsDamage | src/compare.rs:644-665 | a call rewritten without an argument that held anything readable is damage when that call is all there is |
| CompareSelf.DeletedBlockIsDamage | src/compare.rs:698-704 | so is a message or a tool result rewritten without a block that held anything readable |
| Elision.ElideMiddleSays | src/pipeline.rs:1918-1932 | a text over the limit becomes two thirds of the limit from its front and the rest from its end, with a marker between that counts what is gone |
| Elision.ElidedLength | src/pipeline.rs:1918-1932 | an elided text is the limit plus its marker long |
| Elision.ElisionShortensIff | src/pipeline.rs:1918-1932 | eliding shortens a text if and only if more than 26 characters go, and lengthens it if and only if fewer do |
| Elision.ElidingTwice | src/pipeline.rs:1918-1932 | an elided text is over the limit again, and eliding it changes only the count in its marker |
| Elision.ElidingTwiceIsStableIff | src/pipeline.rs:1918-1932 | eliding twice is eliding once if and only if the marker already counts its own length |
| Pairing.PartnersAreMutual | src/budget.rs:366-379 | pairing is mutual, between opposite halves of one id and equal ranks |
| Pairing.Collect | src/budget.rs:339-365 | calls and results are tabled apart, by non-empty id, in document order |
| Pairing.RepairId | src/budget.rs:366-379 | dealing with one id settles its pairs and touches nothing else |
| Pairing.RepairPairing | src/budget.rs:338-380 | whatever order the table yields its ids in, an event survives repair if and only if it was kept and its partner, if any, was |
| Pairing.RepairedIsWhole | src/budget.rs:314-319 | after repair the k-th call and k-th result of every id are kept or dropped together |
| Pairing.RepairedIsLargest | src/budget.rs:321-336 | every choice of kept events that breaks no pair is part of what repair leaves |
| Pairing.RepairedIsStable | src/budget.rs:338-380 | repairing twice is repairing once |
| Budget.TruncateToolOutput | src/budget.rs:282-308 | oversized text blocks are elided in place, the tally counts the event once and the bytes each block lost, never a negative amount |
| Budget.TruncateAll | src/budget.rs:191-198 | every live event stands truncated, the tally says so |
| Budget.WalkBack | src/budget.rs:242-253 | the walk stops where the newest live events still fit and one more would not, or at the newest |
| Budget.DropOldest | src/budget.rs:230-257 | a live event stays if and only if everything from it to the newest fits, or it is the newest |
| Budget.StoppedIsCut | src/budget.rs:242-256 | clearing before the stopping point is that cut, event by event |
| Budget.WithinCap | src/budget.rs:239-241 | a replay within the cap loses nothing to it |
| Budget.Dropped.Record | src/budget.rs:453-480 | a removed event is added to the one tally of its kind, and its call id noted if it is tool traffic |
| Budget.RecordDropped | src/budget.rs:205-210 | the five tallies are those of the events not kept |
| Budget.Report | src/budget.rs:488-578 | the report has a line for each non-empty tally, in order, with its grade |
| Budget.Apply | src/budget.rs:170-223 | the in-place budget returns what the event-by-event definition says |
| Budget.UnlimitedKeepsAll | src/budget.rs:171-178 | the shortcut for no flags gives what the long way would |
| BudgetProofs.RequestedIsUnlimitedIff | src/budget.rs:107-117 | a requested budget is the unlimited one if and only if no flag asked for anything |
| BudgetAccounts.RemovesNothingIff | src/budget.rs:170-178 | whatever lengths bodies print at, a budget reports no removal from any replay if and only if it is the unlimited one |
| BudgetProofs.KeptIff | src/budget.rs:170-223 | cut and repair in closed form: a live event survives if and only if there is no cap, its whole pair fits with everything after it, or it is the newest and unpaired |
| BudgetProofs.NewestSurvivesIff | src/budget.rs:156-162 | the newest live event survives if and only if there is no cap, it is unpaired, or everything from its partner on fits |
| BudgetProofs.BudgetCanKeepNothing | src/budget.rs:156-162 | an answered call under a cap its answer alone fits comes back empty |
| BudgetProofs.KeepsNothingIff | src/budget.rs:156-162 | the replay comes back empty if and only if no event is live or there is a cap, no live event's whole pair fits with everything after it, and the newest is not unpaired |
| BudgetProofs.FittedIsWithinCap | src/budget.rs:230-257 | the fitted replay costs no more than the cap, or it is the newest event alone |
| BudgetBytes.FittedInBytes | src/budget.rs:399-407 | in bytes: the printed and sealed bytes of the fitted replay, and one for each event, are within four times the cap, or it is the newest event alone |
| BudgetBytes.KeptInBytes | src/budget.rs:230-257 | an event stays when its pair and all live after it, printed, sealed and four bytes each, are within four times the cap; and when it stays, they are with one byte each, unless it is the newest and unpaired |
| BudgetBytes.RunSurvivesCut | src/budget.rs:245-253 | before repair, a run of newest events that is within four times the cap with four bytes each is left whole |
| BudgetBytes.CapsuleCrowdsOut | src/budget.rs:399-407 | sealed bytes alone push an older event out |
| BudgetProofs.CutIsLongest | src/budget.rs:245-253 | before repair no longer run of newest events would have fitted |
| BudgetProofs.CutIsSuffix | src/budget.rs:254-256 | what the cap leaves is a run of newest live events |
| BudgetProofs.LargerCapKeepsMore | src/budget.rs:230-257 | a larger cap, or none, keeps a superset, repair included |
| BudgetProofs.DroppingReasoningHelps | src/budget.rs:183-189 | dropping reasoning never costs another event its place, repair included |
| BudgetProofs.TruncationIsSafeAtIff | src/budget.rs:191-198 | under one cap, truncating first loses no event if and only if every live pair, an unpaired newest event aside, that fits untruncated with all after it fits truncated |
| BudgetProofs.TruncationIsSafeIff | src/budget.rs:191-198 | truncating first loses no event under any cap if and only if it makes the replay no dearer from any live event's pair on |
| BudgetProofs.CheaperElisionIsSafe | src/budget.rs:191-198 | in particular when no elided event costs more than it did |
| BudgetProofs.DearerElisionLosesAnEvent | src/budget.rs:129-134 | with every event charged its text and a fixed overhead, a short observation elided past its length pushes a message out |
| BudgetAccounts.FittedIsSubsequence | src/budget.rs:212-217 | the fitted replay is the kept events, all of them, in order, up to truncation |
| BudgetAccounts.FiledOnce | src/budget.rs:453-480 | each dropped event is filed under exactly one of the five kinds |
| BudgetAccounts.LineIff | src/budget.rs:453-578 | the report holds a line for every kind anything was removed under, with that kind's events, capsules and bytes, one for truncation, and no other |
| BudgetAccounts.InOrderOfKinds | src/budget.rs:488-578 | the lines stand in one order: sealed context, conversation, tools, reasoning, metadata, truncation |
| BudgetAccounts.TruncationCounts | src/budget.rs:282-308 | what is reported of truncation: the results over the limit, and the bytes their texts lost |
| BudgetAccounts.TruncatedSays | src/budget.rs:282-308 | each text over the limit is cut down, and all else of the event is as it was |
| BudgetAccounts.NothingGoesUnreported | src/budget.rs:205-223 | events, capsules and sealed bytes in are those out plus those reported removed; the two event counts add up |
| BudgetAccounts.NoLossesIff | src/budget.rs:488-578 | the report is empty if and only if nothing was dropped and nothing was over the limit, and then the replay is unchanged |
| BudgetAccounts.TruncatedStaysOversized | src/budget.rs:282-308 | a truncated observation is over the limit still |
| BudgetAccounts.SecondPassRemovesNothingIff | src/budget.rs:170-223 | a second pass changes and reports nothing if and only if no kept event had been over the limit, although repair zips pairs anew |
| BudgetAccounts.BudgetingTwiceIsBudgetingOnce | src/budget.rs:170-223 | without a tool-output limit the budget is idempotent |
| BudgetPairs.PartnersMove | src/budget.rs:366-379 | when pairs are kept or dropped whole, pairing the survivors anew by id and rank gives each the partner it had, and none to one that had none |
| BudgetPairs.SurvivorsKeepPartners | src/budget.rs:314-336 | so no answer in the fitted replay is taken for the answer to another call, however many share its id |
| BudgetCompare.PartIsCleanIff | src/compare.rs:231-240 | a replay compared with one it is a subsequence of is clean if and only if no capsule is foreign and each event's sealed bytes are on the event it matched |
| BudgetCompare.BudgetedCompares | src/compare.rs:231-240 | without truncation, a budgeted replay against the untrimmed one matches every event, degrades none, and is clean under exactly that condition |
| BudgetCompare.BudgetedIsClean | src/compare.rs:231-240 | it is clean when all capsules are the vendor's and events that print alike carry equal ones |
| BudgetCompare.TwinIsMistaken | src/compare.rs:284-294 | events that print alike with different capsules are mistaken for each other |
| BudgetCompare.DropKindsAgreeIff | src/budget.rs:445-480 | budget and comparator file a missing event under one kind if and only if it was not a message with media |
| BudgetCompare.DropGradesAgree | src/budget.rs:502-577 | every line of the budget's report carries the grade the comparator gives its kind |
| BudgetCompare.MissingCostsTheSame | src/compare.rs:551-576 | a missing body is graded the same by both |
| LineReader.PiecesSplit | src/environment_runtime.rs:1082-1110 | the pieces join to the stream, and each is a line: only the last may lack its newline |
| LineReader.PieceBytes | src/environment_runtime.rs:1082-1110 | byte 10 stands at the end of every piece but perhaps the last, and nowhere else |
| LineReader.PiecesAreTheOnlySplit | src/environment_runtime.rs:1082-1110 | they are the only such split |
| LineReader.NewlineSeparates | src/environment_runtime.rs:1082-1110 | what follows a newline is split as if alone |
| LineReader.TakeChunk | src/environment_runtime.rs:1097-1108 | one chunk, wherever it ends, advances the capped prefix and stops behind the newline |
| LineReader.ReadLine | src/environment_runtime.rs:1082-1110 | however the stream is chunked, a call returns its next piece cut to `max + 1` bytes and consumes exactly that piece; a failing stream is not read past it |
| LineReader.ReadCapped | src/environment_runtime.rs:1207-1231 | the first `max` bytes of the stream, flagged truncated if and only if there were more, or the stream broke |
| Broker.AnsweredIff | src/environment_runtime.rs:955-969 | a line is answered if and only if it is over the limit or is UTF-8 and not blank, and is told it is too long if and only if it is, newline included |
| Broker.HandledIff | src/environment_runtime.rs:969-976 | a line is handled as a request if and only if it is within the limit and, white space around it aside, holds text that parses as that request |
| Broker.RefusedIff | src/environment_runtime.rs:976-983 | it is refused if and only if it is within the limit and holds text that does not parse |
| Broker.LinesAreIndependent | src/environment_runtime.rs:943-946 | whatever precedes a newline, the rest of the stream is answered as if alone |
| Broker.MalformedAreRequests | src/environment_runtime.rs:952-991 | responses equal requests, malformed are at most that, and none if and only if all were handled |
| Broker.CountersCount | src/environment_runtime.rs:952-991 | `malformed` counts the lines over the limit and those with text that is no request; the other two count these and the requests |
| Broker.Serve | src/environment_runtime.rs:947-991 | without failures the answers to the stream are written in order and counted; with one, a prefix of them is |
| Listing.ReusableIff | src/listing_cache.rs:113-123 | a row is reusable if and only if it was read from something and the file is between that size and six fifths of it |
| Listing.AnswersIff | src/main.rs:2582-2607 | a readable row answers if and only if the stamp is its own or the size is in that range; the modification time never matters, and the counts are the row's |
| Listing.AnswerSays | src/main.rs:2588-2598 | under its own stamp a row is shown as it is; under another it shows that stamp's size and time in place of its own |
| Listing.ListingCache.Load | src/listing_cache.rs:216-233 | the loaded rows are those of this row version |
| Listing.ListingCache.Store | src/listing_cache.rs:239-278 | the new table: upsert in order, then prune |
| Listing.ListingCache.Touch | src/listing_cache.rs:285-304 | the new table: only the named rows' last-seen time moves, and no row appears |
| Listing.ReusedSurvivesIff | src/main.rs:2825-2832 | a reused row outlives the run that reused it if and only if it was not yet a month old |
| Listing.KeptAliveIff | src/listing_cache.rs:280-284 | a row reused by every run lives if and only if each run stores within a month of the last touch |
| ListingRuns.StepIsOk | src/listing_cache.rs:239-304 | every append, look, read, finish, store and touch, by any listing, keeps every row bound to the bytes its stamp names |
| ListingRuns.AlwaysOk | src/main.rs:2564-2623 | so in every history of appends and concurrent listings |
| ListingRuns.FinishIsOk | src/main.rs:2576-2616 | two equal stamps around a read name exactly the bytes read |
| ListingRuns.StalenessIsBounded | src/listing_cache.rs:98-123 | every row ever shown carries the counts of a full read at some size s, and the file was then at most s + s/5 long; reuse does not compound |
| ListingRuns.ExactHitIsFresh | src/listing_cache.rs:134-139 | a row under its own stamp equals a fresh parse |
| ListingRuns.AfterStep | src/listing_cache.rs:239-304 | a history is its steps one after another, from a world with files and no cache |
| ListingRuns.NothingIsForgotten | src/main.rs:2655-2680 | a listing keeps all it gathered, and reads a candidate once |
| ListingRuns.UnknownFileIsStored | src/main.rs:2576-2616 | a file the cache knows nothing of, left alone, is read, shown, and stored under its stamp |
| ListingRuns.KnownFileIsReused | src/main.rs:2582-2591 | a file under the stamp on record is shown from its row, and counts as seen |
| ListingRuns.QuietFileIsReadOnce | src/listing_cache.rs:98-123 | so the second of two listings shows what the first read |
| ListingRuns.GrownFileIsShownOrRead | src/main.rs:2592-2598 | grown by up to a fifth it is shown with the size and time it has now; by more, it waits to be read |
| ListingRuns.ChangedIsNotStored | src/main.rs:2576-2616 | a file that grew between its first stamp and its read, or between its read and its second stamp, is shown and not stored |
| ListingRuns.RewriteGoesUnnoticed | src/main.rs:2582-2607 | a file rewritten at the same length is answered for with the counts of its old bytes |
| ListingScan.Classify | src/main.rs:2564-2623 | whatever grows between the calls, the outcome is what the measurements call for; a cached row stands between the size it was recorded under and the size just measured, at most a fifth more, and shows what it may for the stamp just measured; a read row stands at the size read; and a row for the cache is bound to its bytes |
| ListingScan.Gathered.Accept | src/main.rs:2655-2680 | each candidate is shown, reported or elsewhere, and only a row that was read and can be stored goes to the cache |
| ListingScan.Scan | src/main.rs:2806-2819 | every candidate not elsewhere is shown or reported; each row shown carries the counts of a full read of the first `basis` bytes of its file, and no more than six fifths of that was there when the listing began |
| ListingScan.List | src/main.rs:2637-2832 | a whole listing keeps that bound on every row it shows, shows every reused row of a grown file with the size and time just measured, keeps the table bound to the files, and writes back by storing, then touching |
| Closure.SlotIff | src/conformance.rs:256-279 | a directive is a marker whatever its visibility, and anything else goes by its visibility alone |
| Closure.RecordOfBlock | src/conformance.rs:478-481 | every block of a record names the record |
| Closure.CountIsSize | src/conformance.rs:319-333 | with distinct ids, counting a slot's events is counting its ids |
| Closure.Survey | src/conformance.rs:316-334 | one pass yields the slot of each id, the records, and the counts |
| Closure.Invariants | src/conformance.rs:307-476 | the complaints, in order, and all twelve counts: each reason's, each slot's, checkpoints, head and balance |
| ClosureFindings.FindingIff | src/conformance.rs:307-476 | each of the ten complaints is made, with its numbers, exactly when it is deserved |
| Closure.FindingFreeIff | src/conformance.rs:307-476 | there are no findings if and only if ids are distinct, the plan names captured events once and in one place, replays no chrome, leaves no ordinary event out, names a real head, and the counts balance |
| Closure.NamedOthersCount | src/conformance.rs:450-459 | then exactly as many ids that are not ordinary content are named as there are unclassified events |
| Closure.SplitsExactlyIff | src/conformance.rs:301-306 | a finding-free session splits into replayed, excluded, markers and chrome if and only if its plan names no marker and no chrome |
| Closure.WrongExclusionPasses | src/conformance.rs:229-248 | a marker excluded in place of an unclassified event is not found |
| PosixShell.UnquotedIsRefused | src/environment_launch.rs:726-728 | the shell's reader: outside quotes an operator, an expansion or a pattern is refused |
| PosixShell.ExpansionIsRefused | src/environment_launch.rs:726-728 | inside double quotes an expansion is |
| PosixShell.BackslashReads | src/environment_launch.rs:726-728 | outside quotes a backslash takes the next character as it is, and a line end away |
| PosixShell.QuotedBackslashReads | src/environment_launch.rs:726-728 | inside double quotes it does so only before what has a meaning there |
| PosixShell.CommentMayEnd | src/environment_launch.rs:166 | a script may end in a comment |
| PosixShell.ReadQuoted | src/environment_launch.rs:726-728 | inside single quotes, text whose quotes were replaced either way reads back as the text, whatever it holds |
| PosixShell.SaysNothingIff | src/environment_launch.rs:166 | complete lines amount to no command, and are not refused, if and only if they hold only blanks, comments and continuations |
| Launch.ToShell | src/environment_launch.rs:165-174 | the script is the header, the exports in order and the unsets in order |
| Launch.ScriptStarts | src/environment_launch.rs:165-166 | a script starts with the version of its form and the profile's id |
| Launch.ReadExport | src/environment_launch.rs:167-169 | an export line reads back as one command with name and value intact |
| Launch.IsNameIff | src/environment_launch.rs:167-172 | the names a shell assigns to: ASCII letters, digits and underscores, no digit first |
| Launch.ScriptDoesWhatThePlanSaysIff | src/environment_launch.rs:155-174 | running the script makes exactly the plan's changes, in order, for exactly the plans whose names a shell assigns to, if and only if the profile id's lines after its first say nothing |
| Launch.OneLineIdIsSafe | src/environment_launch.rs:155-174 | so under an id of one line, the script does what the plan says if and only if the names are valid |
| Launch.EmptyPlanWorksIff | src/environment_launch.rs:166 | the plan that changes nothing tells which ids are safe |
| Launch.IdCanHoldCommands | src/environment_launch.rs:166 | what follows a newline in a profile id is read as a command the plan does not have; no profile that loads has such an id |
| Launch.UnsafeIdCanWork | src/environment_launch.rs:166 | an unsafe id can still suit a particular plan |
| Overlay.SortDistinct | src/environment_launch.rs:407-408 | sorting and removing repeats yields the same names in ascending order |
| Overlay.Materialise | src/environment_launch.rs:350-428 | the plan sets the profile's variables and unsets, in ascending order, the listed carriers and every inherited carrier |
| Overlay.SetEnvIff | src/environment_launch.rs:364-399 | which variables a plan sets, and to what |
| Overlay.SetOnce | src/environment_launch.rs:364-399 | none of them twice |
| Overlay.MustGoIff | src/environment_launch.rs:401-406 | which it unsets: those listed, and of those inherited the ones that start with `WSL` or `AGS_ENV_` and two others |
| Overlay.ValidIdIff | src/environment.rs:1284-1289 | the ids that load: not blank and without control characters |
| Overlay.MaterialisedWorksIff | src/environment_launch.rs:401-408 | the script of a profile that loads does what its plan says if and only if every inherited carrier has a name a shell can unset |
| Overlay.BlankInNameBreaksScript | src/environment_launch.rs:702-708 | it does not when a variable `WSL x` was inherited |
| Shlex.SplitUndoesQuote | scripts/agent_env_adapter.py:583-586 | splitting undoes quoting, for every word |
| Shlex.BareIff | scripts/agent_env_adapter.py:975-984 | quoting leaves a text as it is if and only if there is some and all of it is safe |
| ShellsAgree.SplitIsRead | scripts/agent_env_adapter.py:583-586 | on text without operators, expansions, comments and line ends, the splitter and the shell read the same words, or both refuse |
| ShellsAgree.LineEndSplits | scripts/agent_env_adapter.py:583-586 | line ends separate words for the splitter |
| Adapter.HasUnquoted | scripts/agent_env_adapter.py:521-569 | the scanner loop finds a wanted character if and only if one stands where the scan is outside quotes and not escaped |
| Adapter.ParseArgv | scripts/agent_env_adapter.py:572-600 | text and word lists are refused or parsed, in the order of the checks |
| Adapter.WordsIff | scripts/agent_env_adapter.py:588-600 | a list of words is accepted, unchanged, if and only if it has 1 to 128 of them and no word holds a NUL, an operator or an expansion anywhere; and which fault it is refused for |
| Adapter.LineIff | scripts/agent_env_adapter.py:572-600 | a line is accepted, as the words it splits into, if and only if it is within 8192 characters, exposes nothing, splits, and the words meet the size and NUL conditions; and which fault it is refused for |
| Adapter.ShellReadsReplacement | scripts/agent_env_adapter.py:975-984 | a shell reads the rewrite as `printf`, `%s` and the output, whatever the output holds |
| Adapter.SplitReplacement | scripts/agent_env_adapter.py:975-984 | so does the splitter |
| Rewrites.ReplacementExposedIff | scripts/agent_env_adapter.py:521-569 | the scanners' verdict on a rewrite, told from the output alone |
| Rewrites.ReplacementParsesIff | scripts/agent_env_adapter.py:572-600 | the rewrite parses back if and only if it is within the limit, has no NUL and nothing in the output comes up where the scanners take themselves to be outside its quotes |
| Rewrites.ReplacementParses | scripts/agent_env_adapter.py:572-600 | in particular when the output has no backslash |
| Rewrites.BackslashedQuoteIsRefused | scripts/agent_env_adapter.py:521-547 | an output with a backslash before a quote is refused although a shell would read it |
| Rewrites.FormIff | scripts/agent_env_adapter.py:1196-1205 | the listed forms are nine single words and three commands with an argument, and errors are passed over for the words only |
| Rewrites.Recognise | scripts/agent_env_adapter.py:1177-1209 | a command is recognised if and only if it parses to a rewrite of what some listed form gives before any form throws, and throws if and only if one throws first, and what that one throws |
| Rewrites.OwnRewriteIsRecognisedIff | scripts/agent_env_adapter.py:1177-1209 | the gate knows its own rewrite again if and only if the rewrite parses back and a listed form still gives the output with nothing thrown before |
| Rewrites.ListedFormsAreRecognised | scripts/agent_env_adapter.py:1196-1208 | under a profile where nothing throws, every listed form's output within the limit, without backslash and NUL, is recognised |

## Left out

- Launch.ScriptDoesWhatThePlanSaysIff: exact per profile id, over all its plans. For one given plan under an unsafe id it says
  nothing: whether the text the id opens is closed by the body depends on the whole script (`UnsafeIdCanWork`).
- Overlay.Materialise: the overlay's files, extra arguments, observations and notes; where the home lies is a parameter.
- LineReader.ReadLine: says nothing of when a stream fails; any read may.
- Broker.Serve: a response is written whole or not at all; a write that fails part-way is not modelled, nor is the flush.
- Budget.Report: without the prose notes, so `broken_pairs` is kept but not printed.
- Compare.CompareReplays: hash collisions of `digest`, and the prose notes of losses and carries.
- ListingRuns.StalenessIsBounded: files are only appended to, never rewritten, truncated or removed; `AnswersIff` and
  `RewriteGoesUnnoticed` say what a rewrite meets.
- Adapter.ParseArgv: list elements that are not strings.
- PosixShell.ReadQuoted: expansions, redirections, operators and NUL are outside the reader, which refuses the first three.
- Handling a request, running host commands, and what the virtual commands print: parameters.
- Resolving a replay (`src/replay.rs`) and everything a provider reads or writes: parameters.
- The carrier markers, nested shells and allow lists that the command gate checks around the parser: finite case analysis.
- Sorting, limiting and rendering a listing, and which files are candidates: plumbing.
- SQLite, its transactions and locks: the table is a map, a store or a touch is one step.
- Machine overflow.
