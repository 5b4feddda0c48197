# Objective integrity: proofs about the ledger, the page transport, the installer and the approval gate

This project models four parts of the repository and proves properties of whole runs of them.

**The objective ledger** (`runtime/objective_ledger.py`). A journal of hash-chained records is the only
truth; its state is what replaying it yields. `Journal` has the bytes: lines, the chain, scanning and the
repair of a torn last line. `JournalRuns` has any number of appenders and readers over one file, taking the
lock, scanning, preserving and cutting a torn tail, writing a record byte by byte, projecting and releasing,
with a crash possible at every step; `JournalSafety` and `JournalTheorems` prove what every such run keeps, and
`JournalLiveness` what can still happen after any of them. The `Ledger*` modules have what the records mean: the validator of classifications, replay as a state
machine, its invariant, what a lineage of contracts may not lose, the frontier of unknown effects, and
`append` with its normalisation. Over the payloads alone, `LedgerClassified` says exactly which classifications
are accepted and what becomes of the contract, its clauses and its outcomes, `LedgerRules` exactly which events of
the other kinds are taken, and `LedgerCommits` exactly which attempts are committed; `LedgerHistory` reads every
part of a replayed state off the records, and `LedgerFrontiers` says what the frontiers say of the files beside
the journal. `LedgerStore` is the store object itself, with its lock, file and
projection as fields, and with somebody else who may seize the lock. `LedgerMethods` validates the records of
methods and effects, and `LedgerRetries` settles which appends under a committed id are reported as duplicates.
`LedgerJournal` joins the two halves, and `LedgerWitness` builds a journal with a contract step by step.
`CanonicalJson` is the canonical JSON text the journal is written in, with its reader, and `JsonCodec` the
codec of records built from it; it meets the assumptions the journal theorems make of encoding and hashing.

**Lossless paging** (`harness/src/policy_harness/bounded_judgments.py`). A JSON value is cut into pieces
with paths (section 3 of RFC 6901 for writing them, section 4 for the order of decoding), pieces are packed
into pages that fit, pages whose answers fail are cut smaller, and the results are put together again. The
measure of "nothing lost, nothing twice" is the *atom*: one character of one leaf's canonical text.
`Coverage*` is splitting and subtraction, `Paging*` the pages and the recursion on failures, `Transport` the
rounds of context compaction and the resumption of a review, `Assessments` and `Disposing*` the
recomposition of assessments and dispositions. Model calls are arbitrary functions, so the theorems hold for
every pattern of overfull pages, truncations, wrong counts and partial answers. What comes out is what calls
returned for exactly the page they were given, and where nothing comes out, there is a page and a call that says
why.

**The installer** (`tools/bootstrap.py`). `Installer.Project` has the project's files, the lock, the backups
with their manifests, and a schedule that says for each atomic effect whether it completes, raises before or
after taking place, or is where the process dies. The contracts hold for every schedule, and a run may die
at any effect, so what they say about the final state they say about every point of a run.
`Installer.Project.InstallEachAndRecover` is the whole story: any number of installations, each dying
anywhere; then the lock removed and a rollback tried, again and again, each interrupted anywhere. With as many
attempts as installations and effects that can go wrong, the files are those of before.

**The approval gate** (`harness/src/policy_harness/access.py`). `Access.Gate` has the stored records;
`Access.Run` is any sequence of permission changes, checks, answers and source changes. Each operation has the
exact condition of its passing and its whole effect, and over runs a mode is always the one last asked for.

Where the source mutates state, the model does: `LedgerStore.Ledger`, `Installer.Project` and `Access.Gate`
are classes, and the loops of scanning, replaying, page cutting, compacting, grouping and recomposing are
loops proved against specification functions.

Three findings about the code came out of the proofs:

- An append under a committed event id never commits a second time, but whether it is reported as a duplicate
  depends on the event, because normalisation runs before the search for the event id. It is one if and only if
  append would record of it what the record says, and that is repeatable now
  (`LedgerRetries.RepeatIsDuplicateIff`): action results, reconciliations and method supplements always are; a
  source event if and only if its file is intact; progress if and only if its contract is current and that
  contract's sources are available; an action start if and only if its contract is current and nothing is
  pending reconciliation; a gap resolution only if the owner disposed of the gap and its file has become
  invalid since; a classification or a disposal never, for its source is consumed. So an attempt that is sent
  again as it was sent first is a duplicate exactly when its record is repeatable
  (`LedgerRetries.ResentIsDuplicateIff`). Sending the recorded payload instead is another matter
  (`LedgerRetries.RecordedFormIsDuplicateIff`): a method supplement whose method was a text is recorded with a
  `note`, which is then refused as an unsupported field (`LedgerRetries.NoteIsRefused`), and disposals and gap
  resolutions are recorded with fields that append itself refuses.
- `canonical_json` writes a high surrogate followed by a low one as it writes the one character they stand
  for, so two different payloads have one text and one hash (`CanonicalJson.SplitPairCollides`). Text reads
  back as the value it was written from if and only if no string in it holds such a pair
  (`CanonicalJson.RoundTripIffPairFree`); values that were read from JSON hold none
  (`CanonicalJson.ReadValuesRoundTrip`).
- `_remaining_review_records` accepts a path that splitting never writes, such as `/00` for `/0`, and then
  covers the element twice (`CoverageSplit.AliasedIndexIsCoveredTwice`). The subtraction is exact if and only
  if the covered paths are written as splitting writes them (`CoverageSplit.ExactIffWellNamed`).

## Model

| member | source | states |
|---|---|---|
| Journal.ScanReturnsChain | runtime/objective_ledger.py:639-683 | whatever the bytes, a scan that succeeds returns a valid hash chain |
| Journal.ScanOfCommitted | runtime/objective_ledger.py:649-668 | after whole records and part of one line, a repairing scan returns exactly the records and cuts exactly the part; a plain scan refuses |
| Journal.ScanExactly | runtime/objective_ledger.py:639-683 | any bytes scan if and only if their lines are the records of one chain, but for a torn last line that a repair may cut; and the records read, the bytes kept and the bytes cut are all of them |
| Journal.FirstLineBreaks | runtime/objective_ledger.py:649-651 | a line ends at the first line feed, carriage return or both, or at the end of the bytes |
| Journal.HeadCommitsToHistory | runtime/objective_ledger.py:669-679 | two valid chains with equal heads are equal record by record |
| Journal.PredecessorsDiffer | runtime/objective_ledger.py:673-675 | no two records of a chain name the same predecessor |
| CanonicalJson.RoundTripIffPairFree | runtime/objective_ledger.py:271-275 | canonical text reads back as the value it was written from if and only if no string or key in it holds a high surrogate directly before a low one |
| CanonicalJson.CanonicalTextsDiffer | runtime/objective_ledger.py:271-275 | different values without such pairs have different canonical texts |
| CanonicalJson.ReadValuesRoundTrip | runtime/objective_ledger.py:656 | whatever text a value was read from, writing it canonically and reading it again gives the value |
| CanonicalJson.SplitPairCollides | runtime/objective_ledger.py:275 | a concrete surrogate pair whose canonical text is that of one character |
| JsonCodec.RecordRoundTrip | runtime/objective_ledger.py:771 | a record's canonical line is printable ASCII without line breaks and is read back as the record |
| JsonCodec.HashedTextsDiffer | runtime/objective_ledger.py:676-679 | the hashed texts of two records are equal exactly when the records agree in everything but their recorded hashes |
| JsonCodec.JsonJournalsAreFaithful | runtime/objective_ledger.py:628-629 | records in canonical JSON, of events of any kind that read back from their messages, meet the assumptions of the journal theorems with any digest free of collisions |
| JsonCodec.JsonCodecExists | runtime/objective_ledger.py:271-300 | these assumptions can be met together, by records of raw JSON messages |
| JournalSafety.StepKeepsInv | runtime/objective_ledger.py:686-816 | every step of every process keeps the file, lock and ownership invariant, and commits nothing but the record whose last byte it wrote |
| JournalTheorems.CommittedOnlyGrows | runtime/objective_ledger.py:686-816 | over any run the committed records only grow at the end |
| JournalTheorems.EveryRunScans | runtime/objective_ledger.py:1864-1878 | after any interleaving and crashes, a repairing scan returns the committed records, a chain of legal records with unique ids |
| JournalTheorems.AcknowledgedStays | runtime/objective_ledger.py:771-816 | an acknowledged record is in the file and stays there |
| JournalTheorems.RejectionCommitsNothing | runtime/objective_ledger.py:763-770 | from taking the lock to reporting a rejection, the committed records are unchanged |
| JournalTheorems.RunsStayHonest | runtime/objective_ledger.py:577-597 | a process begins only records that name its expected head, and none loses its lock |
| JournalTheorems.ExpectedHeadIsUsedOnce | runtime/objective_ledger.py:719-720 | of all appends carrying one expected head at most one is acknowledged |
| JournalTheorems.ExpectedHeadCommitsOnce | runtime/objective_ledger.py:719-720 | counting dead and uncertain appends too, they commit at most one record |
| JournalTheorems.RepairLosesNoByte | runtime/objective_ledger.py:659-667 | cutting a torn tail leaves the committed bytes and a preserved copy of the tail, which every later run keeps |
| JournalLiveness.AppendsStayPossible | runtime/objective_ledger.py:686-816 | after any run, whatever crashed in it, the dead can be cleared away and any legal record appended to what a scan then finds |
| JournalLiveness.VerdictsAreTrue | runtime/objective_ledger.py:686-816 | after any run, whoever reports a duplicate finds its id among the committed records, only appends are rejected, and only reads without repair are refused a torn line |
| JournalLiveness.LoneAppendCommits | runtime/objective_ledger.py:686-816 | an append that nobody disturbs preserves the torn tail, commits its record and frees the lock |
| JournalLiveness.LoneAppendFails | runtime/objective_ledger.py:771-816 | such an append may also fail at any byte of its line, or after the last, and then reports the record as uncertain |
| JournalLiveness.LoneAppendEnds | runtime/objective_ledger.py:721-770 | such an append may be rejected, or report a duplicate where its id is committed, and leaves the records as they are |
| JournalLiveness.LoneReadEnds | runtime/objective_ledger.py:1864-1878 | a reader by itself ends having read, and is refused exactly when there is a torn tail that it may not cut |
| LedgerStore.Ledger.Acquire | runtime/objective_ledger.py:556-575 | the lock is taken only when it is free, and then names its owner |
| LedgerStore.Ledger.Release | runtime/objective_ledger.py:577-609 | only the owner's lock is removed; anything else is a cleanup fault |
| LedgerStore.Ledger.ScanJournal | runtime/objective_ledger.py:639-683 | the loop over lines computes the specified scan, and cut bytes are preserved |
| LedgerStore.Ledger.AppendEvent | runtime/objective_ledger.py:686-816 | under the lock an append leaves the files its decision and the file system's fate determine, and its report says a write had begun, and how far it got, exactly when it had, whatever happens to the lock |
| LedgerStore.Ledger.AppendLocked | runtime/objective_ledger.py:716-816 | the new journal, projection, rejections and preserved tails, for every decision, every short or unsynced write, a failing projection and failing evidence of a rejection |
| LedgerStore.Ledger.WriteLine | runtime/objective_ledger.py:771-801 | the file gains the bytes that were accepted; a write that is short or not synced is reported as uncertain |
| LedgerReplay.ReplayLoop | runtime/objective_ledger.py:1387-1643 | replay's loop over one updated state is the fold of single transitions |
| LedgerRules.StepExactly | runtime/objective_ledger.py:1387-1600 | replay takes exactly the admissible events of every kind, said of the payload and the state |
| LedgerRules.ProgressExactly | runtime/objective_ledger.py:1451-1477 | progress is taken exactly when it names the current contract and moves only open outcomes, and each outcome then has its last stated status and all stated evidence, each once |
| LedgerHistory.StateIsReadOff | runtime/objective_ledger.py:1387-1643 | every part of a replayed state, the sources, contracts, outcomes, actions, reconciliations, resolutions and head, is what the records say of it |
| LedgerClassified.ClassifiedExactly | runtime/objective_ledger.py:1424-1450 | a classification is taken if and only if its payload is acceptable and its sources stand, and then the outcomes, the contract, its clauses and fields, the catalogue and the waiting sources are those its payload states |
| LedgerClassified.StatedOutcomesOpen | runtime/objective_ledger.py:1436-1440 | after an accepted classification that does not withdraw, the outcomes are exactly the stated ones, each as it was stated, open where no status was given; under an increment this holds of the new ones |
| LedgerClassified.AcceptedExactly | runtime/objective_ledger.py:978-1204 | the validator accepts exactly the payloads whose shape, lineage, clauses, outcomes and declared changes fit the state |
| LedgerClassified.IncrementExactly | runtime/objective_ledger.py:1055-1196 | an addition, clarification or correction is accepted exactly when all open outcomes, kept clauses and changed fields are accounted for |
| LedgerFixpoint.NormalisationIsAFixpoint | runtime/objective_ledger.py:978-1204 | in every reachable state an accepted classification, once normalised, is accepted again in the bare replay state and unchanged |
| LedgerAppendProofs.NormalisedClassificationReplays | runtime/objective_ledger.py:1424-1450 | replay neither rejects nor alters a classification that append accepted |
| LedgerAppendProofs.AcceptedClassificationCommits | runtime/objective_ledger.py:721-762 | a classification that normalisation accepts, with a fresh id and a matching head, is committed exactly when the bytes of the sources it then depends on verify |
| LedgerCommits.CommitsExactly | runtime/objective_ledger.py:716-762 | an attempt at a reachable journal is committed if and only if its id is safe and new, the expected head is the head, and its event is allowed by the replayed state and the files beside it |
| LedgerCommits.CommittedExactly | runtime/objective_ledger.py:734-749 | a committed record has the attempt's id, role and time and its payload but for what append adds, and the state after it is its replay; a classification makes of it what its payload states |
| LedgerFrontiers.CommitsRestOnIntactSources | runtime/objective_ledger.py:749-762 | every source a committed event depends on is then in its file, readable and with the recorded digest |
| LedgerWitness.ClassifiedJournalExists | runtime/objective_ledger.py:978-1204 | a concrete capture and a concrete first classification of it are committed, so journals with a contract are reachable |
| LedgerAppendProofs.CommitExtends | runtime/objective_ledger.py:734-749 | a commit extends the chain by one record with a fresh id and the expected head, to the replay of the longer journal |
| LedgerAppendProofs.ReachableJournalsKeepInv | runtime/objective_ledger.py:722-733 | every journal that commits can build has unique ids and replays to a state that keeps the whole invariant |
| LedgerAppendProofs.SourceRetryIsIdempotent | runtime/objective_ledger.py:722-733 | repeating a source event whose file is intact reports the existing record |
| LedgerAppendProofs.ClassificationRetryIsRefused | runtime/objective_ledger.py:721-733 | repeating a classification is refused because its source is consumed |
| LedgerRetries.RepeatIsDuplicateIff | runtime/objective_ledger.py:721-733 | any append under a committed id is reported as the record's duplicate if and only if its role is the record's, it would be recorded as the record, and the condition for that kind of event holds now; it never commits |
| LedgerRetries.NormalisesAgain | runtime/objective_ledger.py:1222-1384 | what is recorded as a committed payload is accepted again, and recorded the same, exactly under that condition |
| LedgerRetries.ResentIsDuplicateIff | runtime/objective_ledger.py:721-733 | a committed attempt sent again as it was sent first is a duplicate exactly when its record is repeatable |
| LedgerRetries.RecordedFormIsDuplicateIff | runtime/objective_ledger.py:1324-1333 | a record's own payload sent again is a duplicate exactly when it can be sent, without a note or the fields append adds, and is repeatable |
| LedgerRetries.NoteIsRefused | runtime/objective_ledger.py:130-138 | a concrete method text whose recorded form is refused |
| LedgerMethods.MethodAgain | runtime/objective_ledger.py:130-148 | a recorded method is accepted again, unchanged, exactly when it holds no note |
| LedgerMethods.EffectAgain | runtime/objective_ledger.py:151-170 | a recorded effect is always accepted again, unchanged |
| LedgerMethods.MethodExactly | runtime/objective_ledger.py:130-148 | a method is accepted exactly when it is a short text, or an object of the known fields with short texts and a reason where nothing was applied; it is recorded stripped |
| LedgerMethods.EffectExactly | runtime/objective_ledger.py:151-170 | an effect is accepted exactly when it is a short text, or an object of the known fields with short texts and known states; it is recorded stripped |
| LedgerRetries.JournalLeaves | runtime/objective_ledger.py:1387-1643 | every state after a committed event still shows it: a disposed source, a gap's recorded resolution, a started action's contract with its clauses and, while that contract is current, its outcomes |
| LedgerAppendProofs.StartNeedsReconciliation | runtime/objective_ledger.py:1272-1313 | an action is recorded only when all sources are reconciled and its outcomes belong to the current contract |
| LedgerAppendProofs.PreflightIsSafe | runtime/objective_ledger.py:2167-2209 | a mutating call allowed by preflight has only settled recorded dependencies, which stay settled |
| LedgerAppendProofs.PreflightHoldsExactly | runtime/objective_ledger.py:2173-2209 | with sources reconciled, a mutating call is held only for an unsettled dependency |
| LedgerFrontiers.PreflightMeans | runtime/objective_ledger.py:2139-2209 | a call is allowed if and only if it does not mutate, or the journal replays, no source waits, every gap is settled, every source of the current contract is intact and every recorded dependency is settled |
| LedgerFrontiers.VerifiedIsIntact | runtime/objective_ledger.py:893-920 | a source is reported verified, with a size, if and only if its file lies inside, is there, is readable, has the recorded digest and has that size; all others are unproven |
| LedgerFrontiers.UnprovenReasons | runtime/objective_ledger.py:899-917 | each other report is given exactly for its reason |
| LedgerFrontiers.UnresolvedIsUnsettled | runtime/objective_ledger.py:2012-2023 | a gap is unresolved unless its record is sound and it has a resolution, which for a recovery names an intact source of the observed digest and size |
| LedgerFrontiers.GapReport | runtime/objective_ledger.py:1968-2022 | when a gap is reported as resolved, invalid or unresolved, and what was observed of it |
| LedgerFrontiers.PendingMeans | runtime/objective_ledger.py:1646-1655 | reconciliation is pending unless nothing waits, every gap is settled and the current sources are intact |
| LedgerInvariant.StepKeepsInv | runtime/objective_ledger.py:1392-1600 | every accepted record keeps source conservation, clause exactness, current work and effect linkage |
| LedgerInvariant.ReplayKeepsInv | runtime/objective_ledger.py:1387-1643 | in every reachable state sources are the disjoint union of unclassified, disposed and classified ones, each consumed once, and every clause binds its source |
| LedgerLineage.NoSilentLoss | runtime/objective_ledger.py:1018-1135 | between any two moments an outcome is kept unless given up by a declaration bound to the classified source, and it is closed in no other way than satisfied or by such a declared change |
| LedgerEffects.DescriptionsNeverChange | runtime/objective_ledger.py:1050-1052 | an outcome id has one description for the whole journal, across withdrawal and replacement |
| LedgerEffects.FrontierStep | runtime/objective_ledger.py:1505-1559 | a record moves an action off the unknown-effect frontier exactly when it settles that action, and never back |
| LedgerEffects.SettledForGood | runtime/objective_ledger.py:1602-1614 | a settled action stays settled, and only a settling record settles it |
| LedgerEffects.FrontierIsExact | runtime/objective_ledger.py:1602-1614 | after any journal, a recorded action is off the frontier of unknown effects if and only if some record of the journal settles it |
| LedgerEffects.ResolvedWasFinished | runtime/objective_ledger.py:1505-1528 | an action whose effect is resolved was finished by an earlier record |
| LedgerEffects.ActionsStartOnce | runtime/objective_ledger.py:1478-1504 | exactly one record starts each action |
| LedgerEffects.RetriesFormAForest | runtime/objective_ledger.py:1494-1500 | the action a retry names was started, and then finished, before the retry started |
| LedgerJournal.LegalIsReachable | runtime/objective_ledger.py:748-749 | a chain of legal records is one that commits can build |
| LedgerJournal.EveryLedgerReplays | runtime/objective_ledger.py:1864-1878 | whatever processes run and crash, the next repairing scan replays to a state with the whole invariant |
| LedgerJournal.JsonLedgerReplays | runtime/objective_ledger.py:639-683 | so does every ledger kept in canonical JSON, in whatever JSON form its events read back from |
| LedgerJournal.InterruptedAppendRepairs | runtime/objective_ledger.py:774-801 | the bytes of an interrupted append are repaired to the journal before it or to the extended one |
| LedgerJournal.AppendToLedger | runtime/objective_ledger.py:686-816 | from the file of a reachable journal and a torn tail, one append, whatever happens to the file system and the lock, leaves the file of a reachable journal, the old one or the old one and its record, and perhaps a torn tail |
| Paths.UnescapeInvertsEscape | harness/src/policy_harness/bounded_judgments.py:2398 | decoding a path component undoes its escaping, for every key |
| Paths.ParseDecimal | harness/src/policy_harness/bounded_judgments.py:2399 | a list index reads back as itself |
| Paths.BelowIsPrefix | harness/src/policy_harness/bounded_judgments.py:2418 | one path lies textually below another exactly when its components extend the other's |
| CoverageSplit.SplitKeepsAtoms | harness/src/policy_harness/bounded_judgments.py:1709-1723 | a split replaces a piece by pieces of the same tree with the same characters in the same order |
| CoverageSplit.SplitsKeepAtoms | harness/src/policy_harness/bounded_judgments.py:1709-1735 | so does any sequence of splits |
| CoverageSplit.SplitExactly | harness/src/policy_harness/bounded_judgments.py:1709-1723 | a piece cannot be split exactly when it is text of less than two characters; a container is split into its elements or fields under their written names, a text into two halves where they stand |
| CoverageExact.CoveredPlusRemaining | harness/src/policy_harness/bounded_judgments.py:2390-2442 | covered and remaining pieces together hold every character of every leaf exactly once |
| CoverageResume.ApartIsAccepted | harness/src/policy_harness/bounded_judgments.py:2416-2423 | pieces that hold no character twice are accepted as coverage, in any order |
| CoverageResume.RemainingIsPlaced | harness/src/policy_harness/bounded_judgments.py:2424-2442 | what remains consists of acceptable pieces of the same value |
| CoverageResume.CompleteIffNothingRemains | harness/src/policy_harness/bounded_judgments.py:2424-2442 | nothing remains if and only if the pieces hold every character exactly once |
| CoverageResume.RemainingCompletes | harness/src/policy_harness/bounded_judgments.py:2462-2470 | covered and remaining together are accepted and leave nothing |
| CoverageSplit.SplitPiecesAreExactCoverage | harness/src/policy_harness/bounded_judgments.py:2390-2442 | any selection of the pieces of repeated splitting is exact coverage |
| CoverageSplit.ExactIffWellNamed | harness/src/policy_harness/bounded_judgments.py:2397-2401 | accepted coverage is subtracted exactly if and only if its paths are written as splitting writes them and fragments are of leaf text |
| CoverageSplit.AliasedIndexIsCoveredTwice | harness/src/policy_harness/bounded_judgments.py:2399 | a concrete coverage with a zero-padded index that is accepted and covers an element twice |
| Paging.LongestPrefix | harness/src/policy_harness/bounded_judgments.py:1740-1752 | doubling and bisection find a fitting beginning, the longest one when fitting is monotone |
| Paging.Pages | harness/src/policy_harness/bounded_judgments.py:1725-1755 | terminates; every page is non-empty, fits, and is the longest beginning of what the pages before it left when fitting is monotone; pages concatenate to the input or its split cover; it raises only on an item that neither fits nor splits |
| Paging.SmallerPartsShrink | harness/src/policy_harness/bounded_judgments.py:1773-1805 | every child of a failed page is strictly lighter than the page |
| PagingProofs.SmallerPartsKeep | harness/src/policy_harness/bounded_judgments.py:1773-1805 | the children together hold the page |
| PagingProofs.SmallerPartsExactly | harness/src/policy_harness/bounded_judgments.py:1773-1805 | a failed page is cut exactly when it holds more than one item or an item that divides; a wrong count cuts it into equal chunks, anything else in two halves |
| PagingProofs.CompletesExplained | harness/src/policy_harness/bounded_judgments.py:1822-1902 | every completed leaf fitted and holds what the call returned for exactly its own page or retained part; and where there are no leaves, a page and its call give the reason |
| PagingProofs.CompletesInOrder | harness/src/policy_harness/bounded_judgments.py:1822-1902 | for every pattern of overfull pages, truncations and wrong counts, completed leaves hold the page in its order |
| PagingProofs.SmallerInOrder | harness/src/policy_harness/bounded_judgments.py:1876-1902 | the same when a failure is already known |
| PagingProofs.CompletesOnce | harness/src/policy_harness/bounded_judgments.py:1859-1902 | with partial answers and corrections too, each item is in exactly as many leaves as it was in the page |
| PagingProofs.LeavesValid | harness/src/policy_harness/bounded_judgments.py:1822-1902 | leaves hold only items cut from the page |
| Transport.PiecesSplitWell | harness/src/policy_harness/bounded_judgments.py:1709-1723 | splitting a piece lowers twice its text less the number of fragments, so cutting ends |
| Transport.PageCalls | harness/src/policy_harness/bounded_judgments.py:1904-1913 | completed pages of pieces hold exactly the characters of the records, in order, each with what the call for it returned; without them, some piece could not be cut or some call failed |
| Transport.StuckIsShort | harness/src/policy_harness/bounded_judgments.py:1730-1738 | where cutting pages stops, a piece does not fit alone and is too short to be split |
| Transport.Summaries | harness/src/policy_harness/bounded_judgments.py:1953-1958 | a round is summarised exactly when every read reports exactly its own records, and each record holds the summary and the limitations its read returned |
| Transport.CompactContext | harness/src/policy_harness/bounded_judgments.py:1927-1974 | ends, with strictly shrinking rounds; the first round reads the whole original context and each later one all summaries of the round before, every character once and in order, each answered by a call; a synopsis is returned only if it fits, and otherwise a call, a report or a size says why not |
| Transport.ResumeReview | harness/src/policy_harness/bounded_judgments.py:2444-2473 | a resumed review that returns keeps the retained answers, has an answer of a call for each other page, and has covered every character once if and only if the retained pieces are well named; then its final completeness check never fails, and where it stops there is a failed call or refused coverage |
| Assessments.OrderedAssessments | harness/src/policy_harness/bounded_judgments.py:2089-2103 | succeeds exactly when the leaves answer every target once, with the leaves' rows in target order |
| Assessments.LeavesRecompose | harness/src/policy_harness/bounded_judgments.py:2096-2102 | leaves that hold each target once and answer what they hold always recompose |
| Assessments.TargetGroups | harness/src/policy_harness/bounded_judgments.py:2719-2735 | greedy groups concatenate to the targets, respect the limit, and stop short only where the next target does not fit |
| Assessments.Assess | harness/src/policy_harness/bounded_judgments.py:2243-2280 | by whatever route and failures, a returned assessment has one row per target in the original order, each as a call returned it for that target; it fails only where a call fails or answers other targets, and for repeated identities |
| DispositionContract.DifferenceIsExact | harness/src/policy_harness/disposition_contracts.py:54-62 | nothing is reported exactly when every expected identity is named once and no other |
| DispositionContract.ValidIffExact | harness/src/policy_harness/disposition_contracts.py:65-70 | a response is valid if and only if it answers every opinion once and consumes every source once |
| DispositionContract.OwnershipAgrees | harness/src/policy_harness/disposition_contracts.py:35-46 | when both places own the sources, either names the same references |
| DispositionContract.ContractExactly | harness/src/policy_harness/disposition_contracts.py:26-51 | a payload has a contract exactly when every list it has is identified once each and both places of the sources agree, and the contract names them in order |
| DispositionContract.ViolationReports | harness/src/policy_harness/disposition_contracts.py:54-62 | what is reported missing, extra and duplicate is exactly that |
| Disposing.ShownIds | harness/src/policy_harness/bounded_judgments.py:2647-2658 | a page shows each of its sources once, however many fragments it holds |
| Disposing.PageShows | harness/src/policy_harness/bounded_judgments.py:2649-2658 | a source is shown whole if it is on the page whole, and otherwise with all its fragments on the page in order |
| Disposing.CombineMeans | harness/src/policy_harness/bounded_judgments.py:2683-2686 | the combined disposition has all responses in order and every reference once |
| Disposing.WorstIsWorst | harness/src/policy_harness/bounded_judgments.py:2683 | the verdict is one of the pages' and none is worse |
| Disposing.PagesComposeContract | harness/src/policy_harness/bounded_judgments.py:2676-2687 | if every page passes its own contract, the recombined response passes the whole one, unless the whole payload's own identities are inexact |
| Disposing.GroupingDoesNotMatter | harness/src/policy_harness/bounded_judgments.py:2683-2686 | responses, references and the worst verdict are the same for every grouping of the pages |
| DisposingRun.FragmentSource | harness/src/policy_harness/bounded_judgments.py:2664-2672 | fragments of a source each fit where they stand and hold its characters exactly once, in order; it fails only on a piece that fits nowhere it is tried and is too short to be split |
| DisposingRun.Units | harness/src/policy_harness/bounded_judgments.py:2646-2674 | the units hold the opinions in order and every character of every source, a source whole where it fits and in fragments where it does not |
| DisposingRun.CompleteUnits | harness/src/policy_harness/bounded_judgments.py:2676-2677 | the completed leaves are the units in order, each with what the call for it returned, also after a truncated direct call; without them, a call or a unit says why |
| DisposingRun.Dispose | harness/src/policy_harness/bounded_judgments.py:2615-2689 | a disposition is the direct answer to the whole payload, or the combination of the answers to pages that hold all units and are each valid; every refusal has its cause, and the final check of a paged one refuses only inexact identities |
| InstallerModel.WriteAheadIsRecoverable | tools/bootstrap.py:329-348 | a state that obeys the write-ahead rule can be rolled back |
| InstallerModel.BackIsOriginal | tools/bootstrap.py:234-254 | all members back to before is exactly the original file map |
| InstallerModel.BackIsRecoverable | tools/bootstrap.py:234-254 | however far a rollback got, its result can be rolled back again |
| InstallerModel.StageAhead | tools/bootstrap.py:333-346 | the manifest on disk, which lags one member behind memory, is still true of the files, and so is its phase: prepared means nothing begun, applied means all delivered |
| Installer.PreviewBinds | tools/bootstrap.py:269-275 | equal plan identities mean equal members, equal content before and equal content delivered |
| Installer.PayloadsAre | tools/bootstrap.py:286-291 | what is delivered is what is planned, under an update only the package's own members |
| Installer.Project.Owned | tools/bootstrap.py:166-186 | the owned members, exactly when each still has its recorded content |
| Installer.Project.UpdateBaseline | tools/bootstrap.py:146-189 | succeeds exactly when the latest standing complete installation is applied and unmodified |
| Installer.Project.MakePlan | tools/bootstrap.py:278-297 | a plan is made if and only if this is no update, or an update of a complete installation with an unmodified baseline that owns every planned package member there is; with its members, payloads and owned set |
| Installer.Project.CopyMembers | tools/bootstrap.py:323-328 | the backup holds the prior content of every member |
| Installer.Project.ApplyMember | tools/bootstrap.py:333-346 | at every fate of one member's writes the saved manifest is ahead of the files |
| Installer.Project.InstallLocked | tools/bootstrap.py:311-357 | nothing happens when a member changed since the preview; otherwise the write-ahead rule holds wherever it stops |
| Installer.Project.Install | tools/bootstrap.py:278-357 | for every schedule of faults: own backup only, write-ahead rule, updates touch only owned unmodified package members, a finished run delivered the plan everywhere, and the manifest of a failed one says that it was interrupted if that could be written; it is refused only without a plan, under a lock or for another preview, and where nothing goes wrong an ordinary installation finishes |
| Installer.Project.CheckRestore | tools/bootstrap.py:208-228 | restoring is allowed exactly when every copy is sound and every member holds a known content |
| Installer.Project.HandleMember | tools/bootstrap.py:234-252 | at every fate of one member's restoration the saved attempt is ahead of the files |
| Installer.Project.RollbackLocked | tools/bootstrap.py:207-264 | one unknown member or damaged copy changes nothing; otherwise members return one by one, last first, listed as restored or as back already, and only a saved attempt with all of them says rolled back |
| Installer.Project.Rollback | tools/bootstrap.py:192-266 | after any interruption it can be run again, and its manifest says so if that could be written; when it finishes, the files are exactly those before the installation |
| Installer.Project.InstallAndRecover | tools/bootstrap.py:192-357 | however an installation ends and however often rolling it back is interrupted, a rollback that finishes leaves exactly the files of before, and with more attempts than effects that can go wrong one finishes |
| Installer.Project.InstallEach | tools/bootstrap.py:278-357 | any sequence of installations and updates, however each ends, leaves a recoverable stack |
| Installer.Project.RecoverEach | tools/bootstrap.py:192-266 | rolling back a stack from its top with every attempt interrupted anywhere keeps what is left a stack; with as many attempts as layers and effects that can go wrong, none is left and the files are those from before it |
| Installer.Project.InstallEachAndRecover | tools/bootstrap.py:192-357 | the same for any sequence of installations, each dying anywhere |
| Installer.Project.RollbackEach | tools/bootstrap.py:192-266 | rolling a stack back from its top restores the files from before it |
| Access.Gate.Set | harness/src/policy_harness/access.py:24-39 | the new grant and history, or the refusal |
| Access.Gate.Check | harness/src/policy_harness/access.py:41-69 | the outcome of a check and the approval row it leaves |
| Access.Gate.Pending | harness/src/policy_harness/access.py:71-80 | lists exactly the rows that an answer would be accepted for |
| Access.Gate.Answer | harness/src/policy_harness/access.py:82-101 | the answered row, or the refusal |
| Access.SetExactly | harness/src/policy_harness/access.py:24-39 | a change of permission passes if and only if the mode and the task are known, the revision is current and full access is confirmed or already held; then the task has exactly this mode at the next revision, and nothing else changes |
| Access.ModeIsTheLastSet | harness/src/policy_harness/access.py:20-39 | over any run a task has the mode its last accepted change asked for, and before any it has workspace access |
| Access.FullAccessWasConfirmed | harness/src/policy_harness/access.py:31-34 | whoever has full access confirmed it when it was taken up, and has held it since |
| Access.ChecksExactly | harness/src/policy_harness/access.py:52-69 | a check asks the user exactly in ask mode for what may be approved and is not answered, and adds one row for it |
| Access.AnswersExactly | harness/src/policy_harness/access.py:82-101 | an answer is taken exactly while its source and permission stand, makes the row approved or rejected as it says, and changes nothing else |
| Access.PassesExactlyWhen | harness/src/policy_harness/access.py:41-69 | when a check passes, in each mode, for each kind of tool |
| Access.AnswerableIffResolvable | harness/src/policy_harness/access.py:71-101 | a row is pending if and only if an answer to it would be recorded |
| Access.AskNeedsApproval | harness/src/policy_harness/access.py:52-69 | in ask mode anything but looking passes only if exactly this was approved at this revision, with no change of permission since |
| Access.ChangeKillsApprovals | harness/src/policy_harness/access.py:33-37 | a change of permission ends every earlier approval for good |
| Access.AnswersAreFinal | harness/src/policy_harness/access.py:91-97 | an answer never changes and a row never disappears |
| Access.RowsAreListed | harness/src/policy_harness/access.py:61-64 | every approval row is listed exactly once |
| Access.HistoryHasNoGaps | harness/src/policy_harness/access.py:33-36 | history holds exactly the earlier revisions, each as it was |
| Access.HistoryKeysDiffer | harness/src/policy_harness/access.py:34 | history keys are read back uniquely, even when identities contain colons |

## Left out

- Real files, fsync, power loss, process ids, clocks, random tokens and symbolic links: files are values that are read and replaced atomically, except for the journal, which is written byte by byte.
- Removing the lock of a dead owner (`recover_dead_owner_lock`): its last re-check and the removal are one step of the model.
- Other programs changing the destination between two effects of one locked installer run: the checks for it are in the model, changes between the preview and the lock are covered, changes in between are not.
- A lock left behind by an installer that died: an operator removes it, and `RemoveStaleLock` stands for that.
- A process killed inside `atomic_write` leaves its temporary `.oif-tmp-` file, and directories created for a member stay after a rollback: what is restored exactly is the modelled map from member paths to contents.
- Backups ordered by name: the model keeps them in the order they were made.
- The mapping between the ledger's typed events and JSON objects: identifiers are strings, list elements have their fields, and a field that should hold a list may be missing, another value or a list.
- `response_check` receipts; fields of a payload that no rule looks at are opaque text.
- Upper-casing and stripping outside ASCII.
- `render_projection`, the ledger's `compact_context`, hooks and the command line: text rendering and input.
- SHA-256: digests are injective. Identities of pieces, page payloads, approvals and manifests are the things digested, and for the journal the canonical text of a record without its hash.
- Canonical JSON text in the page transport: any function from values to non-empty text.
- The measurement behind `_fits`: any predicate of page number and items. Monotonicity is assumed only for the claim that pages are longest.
- CoverageExact.CoveredPlusRemaining: needs paths as splitting writes them, because the code accepts others; CoverageSplit.ExactIffWellNamed gives the exact condition.
- CanonicalJson.RoundTripIffPairFree: fractions, exponents and non-finite numbers are not modelled, nor Python's limit on the digits of an integer. The reader takes what canonical text is made of: ASCII without white space between tokens.
- JsonCodec.JsonJournalsAreFaithful: payloads are JSON values without split surrogate pairs, and a line must hold exactly the nine fields of a record. How the typed events of `LedgerModel` are laid out in JSON is a parameter that has to read back; no such layout is written out.
- Transport.ResumeReview: the context fields of retained pages are not modelled; a review is whatever value its call returned.
- Transport.CompactContext: the synopsis is not joined to one text, and its counts and digests are not modelled; the records of every round are.
- PagingProofs.CompletesOnce: how an assessment is split into retained and unresolved rows is decided elsewhere; any partition of the page's rows is allowed, and the number of corrections is bounded by a parameter.
- Assessments.Assess: `AssessmentRevisionTransition`, saved single-target results and retained subsets from earlier processes are not part of this model.
- Paging.SmallerPartsShrink: the logical count is the number of items of the page. Groups of ideas come from modules that are not part of this model; there the set that is cut may have grown beyond the page, and the width may be under half.
- Paths.ParseInt: reads ASCII digits; Python's `int` reads other decimal digits as well.
- DisposingRun.Dispose: the rationale text and the learning fields of the payload are not modelled.
- Authentication and provenance of model calls in `bounded_judgments.py`, and `disposition_recovery.py`.
- Installer.Project.MakePlan: where several refusals apply, which one is reported first is stated only by the code of the model.
- `planned_files`, path validation in `member`, and manifest fields that are only text.
- Access.Gate.Check: redaction of stored arguments and the event stream are not modelled.
- Browser observation, attachments, native execution, the launcher, packaging, scanners and benchmarks: input, output and single-pass checks.
