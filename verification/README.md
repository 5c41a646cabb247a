# Evidence control plane: models and proofs

The repository is a control plane for code optimisation whose every decision
must rest on evidence. This project models its self-contained algorithms and
protocols in Dafny and proves what they are for. `dafny verify dfyconfig.toml`
checks all of it.

**Patch engine.** `Text`, `Decimal`, `Unified` and `Splice` give the unified
diff format (the section "Diff -u or -U Output Format" of the `diff` utility in
POSIX.1, XCU) and its meaning as a splice. `Applier` has the hand-written
parser and applier as nested loops and proves that it accepts exactly the
matching splices. `Posix` compares its reading of empty ranges with the
standard's. `HeaderNames`, `Printer`, `Grouping`, `Context`, `Builder` and
`Occurrences` print diffs for it and prove the round trip; `Edits` says which
edits are taken, `EditSamples` has one. `Inverse`, `Undo` and
`Restoring` prove when a patch can be undone. `Samples` has concrete patches.
`PatchIdentity`, `IdentityIgnores`, `Dedupe`, `Disposition` and `Redundancy`
prove what the normalized identity ignores, and that dropping patches by it
loses nothing but trailing blanks.

**Source trees.** `SourceTree`, `SourceHash` and `SourceWalk` prove that the
byte stream fed to the source hash characterises the tree; `Archive` proves
that the tar walk emits its image; `TreeBytes` spells both out.

**Generation budget.** `Budget` is the machine of plan, attempts, retries and
ledger; `BudgetSafety` proves its invariant over every run, `BudgetSteps` what
each reconciliation and settlement does, `BudgetProgress` which attempt a claim
takes and that every run can be closed, `BudgetRecord` what the stored record
says and how a run ends, `BudgetLedger` what is in the ledger.

**Runner and receipts.** `Capture` has the two reader threads, `Unicode`,
`Malformed` and `Redaction` what is quoted of their output, `Masking` and
`EnvValues` what that hides and keeps, `Runner` the status decision and the
record, `ReceiptStore` the content-addressed store.

**Write-once and at-most-once.** `Publication` is write-once publication by
concurrent publishers that may crash, `Decisions` the idempotency keys on top,
`AtMostOnce` the marker, receipt, recovery and settlement of one paid attempt,
`Execution` the course of one that nobody disturbs. Both take a publication as
one step, which is what `Publication.WriteOnce` allows. `Ingest` turns a model's
reply into a batch, `Proposals` says when, and `Recovery` runs the protocol with
those batches.

**Leases, cleanup, cache, browser.** `Lease` and `Fencing`, `Cleaner`,
`CandidateCache` (one builder) and `BuildRace` (several), and `ScriptedStart`.

SHA-256 and uuid5 are collision-free functions handed to the model. Identities
and hashes that are only compared are numbers. Where the program raises, the
model returns an error or `None`.

## What the proofs found

- A patch cannot always be undone. When the baseline's last line has no
  terminator and the patch inserts after it, or when the patch ends in an
  inserted line without line feed that is empty or not the last, lines run
  together and the inverse is refused. `Restoring.InverseRestores` gives the
  exact condition, `Samples.OpenEndCannotUndo` a patch.
- An empty old range is placed before the line it names, where POSIX.1 places
  it after (`Samples.EmptyRangeOneEarly`). `Posix` says exactly when the two
  readings accept the same hunks and when they agree. Printed diffs of a
  non-empty baseline never have one (`Grouping.GroupedAnchored`).
- The builder documents a unique match but counts occurrences that do not
  overlap. `Occurrences.CountOneMeansOnceIff` gives the exact class of texts
  for which the test means what it says, `CountMissesOverlap` an example.
  `Edits.OverlapRefused` has an edit at a line start that is refused for an
  overlapping occurrence before it.
- Redaction hides the value of an assignment but not what follows a keyword that
  is itself such a value: `token=secret : x` keeps the `x`
  (`Masking.RedactMasks`, `RedactSamples`). What remains has no keyword with an
  unmasked value (`Masking.RedactedClean`).
- Normalization is not idempotent on a file header with a blank before its
  first tab (`PatchIdentity.NormalizeIdempotentIff`,
  `Samples.NormalizeChangesAgain`); it is stable from the second application on.
- A run can be paid for and then yield nothing, because its record cannot be
  built: the limits allow attempts up to 64 and the record 8, and redaction can
  stretch 1024 quoted bytes past the 4096 characters of a summary
  (`Runner.NinthAttemptLost`, `Runner.OnesLost`). `Runner.ExecuteYields` gives
  the exact condition, `LongValuesYield` one that is known beforehand. Plans
  give at most 8 attempts, so a planned run meets the first bound.
- A failed removal is quoted from the first 1024 bytes of its message, and its
  record holds 1 to 1000 characters. An empty message and 1001 ASCII letters
  are raised instead of recorded, 1001 two-byte letters are not
  (`Runner.RemovalReported`, `PlainRemoval`, `RemovalExamples`).
- The runner's own limits put no bound on the output; only a planned limit
  keeps a successful result below the store's 100 MiB
  (`ReceiptStore.RunnerResultPublishable`, `PlannedOutputFits`).
- Two builders of one task that both miss the cache collide when they record,
  because the cache compares the creation time and the adapter provenance too;
  the loser fails, and succeeds when it starts again (`BuildRace.TwoMisses`,
  `CollidesIff`). A hit returns the first builder's time and provenance.

## Model

| member | source | states |
|---|---|---|
| `Text.JoinLines` | src/hcuopt/adapters/agent_promotion.py:463-463 | cutting a text into lines that keep their ends, and joining them again, loses nothing |
| `Text.LinesOfJoin` | src/hcuopt/adapters/agent_promotion.py:524-524 | the other direction: joined lines are cut back into the same lines when every line but the last is terminated |
| `Text.LinesConcat` | src/hcuopt/adapters/agent_promotion.py:571-579 | after an LF-terminated part, the lines of a text are the lines of its parts |
| `Decimal.ReadNumeralOf` | src/hcuopt/adapters/agent_promotion.py:56-58 | a number printed in a hunk header is read back, whatever follows that is no digit |
| `Unified.ReadHeaderOf` | src/hcuopt/adapters/agent_promotion.py:56-58 | every spelling of a hunk header, counts omitted or not, section text or not, reads back as its two spans |
| `Unified.ReadPatchSound` | src/hcuopt/adapters/agent_promotion.py:468-520 | what the reader reports is a layout of the patch: noise lines and hunks whose bodies have the declared counts, covering every line |
| `Unified.ReadPatchOf` | src/hcuopt/adapters/agent_promotion.py:468-520 | that layout is the only one: any well-formed layout of the lines is what the reader reports |
| `Splice.FitsFromIsValidSplice` | src/hcuopt/adapters/agent_promotion.py:477-479 | the left-to-right acceptance test is exactly: hunks ordered, not overlapping, inside the baseline, and matching it |
| `Splice.SplicedLength` | src/hcuopt/adapters/agent_promotion.py:480-523 | the line count changes by the sum of new minus old counts |
| `Splice.SplicedUntouched` | src/hcuopt/adapters/agent_promotion.py:480-523 | lines outside all hunks come through unchanged, in order, shifted by the growth of the hunks before them |
| `Splice.SplicedNewLine` | src/hcuopt/adapters/agent_promotion.py:514-515 | every new line of every hunk stands at its shifted place |
| `Posix.SplicesAgree` | src/hcuopt/adapters/agent_promotion.py:474-481 | POSIX.1 puts an empty old range after the line it names, the code before it; for any hunks that both accept the results are equal exactly when every line inserted that way equals the line it is put before |
| `Posix.PosixAcceptsIff` | src/hcuopt/adapters/agent_promotion.py:474-481 | hunks the code accepts are accepted by POSIX.1 too exactly when no such insertion goes past the end or stands right before a line the next hunk replaces |
| `Posix.CodeAcceptsIff` | src/hcuopt/adapters/agent_promotion.py:474-481 | hunks POSIX.1 accepts are accepted by the code too exactly when no such insertion goes before the first line or right after lines the hunk before it replaces |
| `Posix.OutcomesAgreeIff` | src/hcuopt/adapters/agent_promotion.py:463-527 | for whole patches on LF-terminated texts, where both accept: equal outcomes exactly when every insertion is indifferent to its place |
| `Samples.EmptyRangeOneEarly` | src/hcuopt/adapters/agent_promotion.py:474-481 | a concrete patch, `@@ -1,0 +2 @@` on two lines, with both results |
| `Applier.ApplySingleFileUnifiedPatch` | src/hcuopt/adapters/agent_promotion.py:429-527 | the two nested loops compute the specified outcome, and on every input the refusal is the one specified: headers and path first, then the first fault in reading order, then no hunk and no change |
| `Applier.FaultIff` | src/hcuopt/adapters/agent_promotion.py:468-520 | a first fault exists exactly when the patch has no layout that splices the baseline |
| `Applier.AcceptsExactlySplices` | src/hcuopt/adapters/agent_promotion.py:445-527 | accepted exactly when the text has no NUL, the headers name the file, and the hunks form an ordered, non-overlapping, matching splice that changes the baseline; the candidate is that splice |
| `HeaderNames.NamedPathShape` | src/hcuopt/adapters/agent_promotion.py:451-461 | whatever path the headers name has no tab, no LF and no trailing blank |
| `HeaderNames.HeaderPathOf` | src/hcuopt/adapters/agent_promotion.py:451-455 | a printed header line, with either prefix, reads back as its path for every path of that shape |
| `HeaderNames.HeaderPathIs` | src/hcuopt/adapters/agent_promotion.py:451-455 | every way to write a header line: its path is what stands before the first tab, without the blanks around it and without one a/ or b/ |
| `HeaderNames.HeadersNameIff` | src/hcuopt/adapters/agent_promotion.py:445-461 | the headers name a file exactly when one line starts with each mark and both read as its path |
| `Printer.BlocksSplice` | src/hcuopt/adapters/agent_promotion.py:572-580 | printed hunks, read as a splice, turn the old side of the segments into the new side |
| `Printer.PrintedOutcome` | src/hcuopt/adapters/agent_promotion.py:572-588 | applying a printed patch, of which only the last line may lack its line feed, gives exactly the target, or is refused, and exactly when it is refused |
| `Grouping.GroupedSides` | src/hcuopt/adapters/agent_promotion.py:573-579 | grouping an edit script into hunks with three context lines keeps both sides of the script |
| `Grouping.GroupedAnchored` | src/hcuopt/adapters/agent_promotion.py:573-579 | on a non-empty baseline every printed hunk has an old line to stand on, so none has the empty range that the applier would place one line early |
| `Context.GroupedTight` | src/hcuopt/adapters/agent_promotion.py:573-579 | every printed hunk shows a change, with at most three unchanged lines at either end |
| `Context.GroupedFull` | src/hcuopt/adapters/agent_promotion.py:573-579 | where a printed hunk leaves lines out, before it or after it, it shows exactly three unchanged ones |
| `Grouping.GroupedPlain` | src/hcuopt/adapters/agent_promotion.py:573-579 | grouping keeps every changed line, so a script is free of header-like lines exactly when its groups are |
| `Grouping.GroupedNeat` | src/hcuopt/adapters/agent_promotion.py:573-579 | a script that is open at its end only is printed as lines of which only the last may lack its line feed |
| `Builder.IndexOfFound` | src/hcuopt/adapters/agent_promotion.py:568-568 | str.index finds an occurrence, and there is none before it |
| `Builder.UnifiedDiffApplies` | src/hcuopt/adapters/agent_promotion.py:572-588 | printing any edit script of a non-empty text, whose last line has a line feed or is left in a closing unchanged stretch, and applying it gives exactly its target, unless a deleted line starts with "-- ", an inserted line with "++ ", or the path does not read back; then it is refused |
| `Builder.BuilderRoundTrips` | src/hcuopt/adapters/agent_promotion.py:530-590 | within the size limits the final round-trip check never fails, also on a baseline without final line feed whose last line the opcodes leave alone; the builder succeeds exactly when path and changed lines are plain, and its patch applies to the edited text |
| `Builder.CandidateLines` | src/hcuopt/adapters/agent_promotion.py:564-571 | the edit replaces whole lines and keeps the lines before and after it |
| `Occurrences.CountIsOne` | src/hcuopt/adapters/agent_promotion.py:564-567 | the count is one exactly when the text occurs and every occurrence starts inside the first |
| `Occurrences.CountOneMeansOnceIff` | src/hcuopt/adapters/agent_promotion.py:564-567 | the uniqueness test means a single occurrence in every baseline exactly for texts that do not overlap themselves |
| `Occurrences.CountMissesOverlap` | src/hcuopt/adapters/agent_promotion.py:564-567 | a concrete baseline of three equal lines where the test passes although the text occurs twice |
| `Edits.PrecheckIff` | src/hcuopt/adapters/agent_promotion.py:549-570 | the checks before the diff pass exactly for two distinct LF texts without NUL and CR, of at most 256,000 UTF-8 bytes each, of which the old one occurs at a line start and every other occurrence begins inside that one |
| `Edits.RefusalIs` | src/hcuopt/adapters/agent_promotion.py:549-570 | which refusal is raised, in the order in which the checks are made |
| `Edits.BorderlessAllowed` | src/hcuopt/adapters/agent_promotion.py:549-570 | for an old text that does not overlap itself: exactly when it occurs once, and there at a line start |
| `Edits.BuilderSucceedsIff` | src/hcuopt/adapters/agent_promotion.py:530-590 | the builder succeeds exactly when these checks pass, path and changed lines are plain and the patch has at most 1,000,000 bytes; which error it gives otherwise; and its patch replaces that occurrence and nothing else |
| `Edits.OverlapRefused` | src/hcuopt/adapters/agent_promotion.py:564-570 | a concrete baseline where the old text stands at a line start and is refused, because an overlapping occurrence before it does not |
| `EditSamples.SecondLineSample` | src/hcuopt/adapters/agent_promotion.py:530-590 | replacing the second of two lines: the whole patch text, and the text it makes |
| `Inverse.SpliceInverse` | src/hcuopt/adapters/agent_promotion.py:463-523 | swapping the edits and moving every hunk by the growth before it splices the candidate back into the baseline |
| `Inverse.InvertPartsHunks` | src/hcuopt/adapters/agent_promotion.py:473-481 | re-basing the header starts moves the hunks exactly so |
| `Restoring.LooseJoined` | src/hcuopt/adapters/agent_promotion.py:463-524 | a joined candidate has fewer lines as soon as some line is empty, or some line before the last has no terminator |
| `Restoring.InverseRestores` | src/hcuopt/adapters/agent_promotion.py:463-527 | the inverse of any accepted patch restores the baseline, or is refused, and exactly when it is refused: swapped lines upset the headers, the patch inserted after an unterminated last line, or it ends in an inserted line without line feed that is empty or not the last |
| `Restoring.QuietInverseRestores` | src/hcuopt/adapters/agent_promotion.py:463-527 | without header-like body lines only the ends of the texts decide whether the inverse restores |
| `Restoring.TerminatedNeverUnravels` | src/hcuopt/adapters/agent_promotion.py:463-527 | on LF-terminated texts they never do any harm, so the inverse of such a patch always restores |
| `Samples.OpenEndCannotUndo` | src/hcuopt/adapters/agent_promotion.py:463-527 | a concrete patch that appends to a baseline without line feed, and whose inverse is refused |
| `PatchIdentity.NormalizePatch` | src/hcuopt/agent/patch_identity.py:16-36 | the collecting loop and the popping loop compute the specified identity |
| `PatchIdentity.NormalizeStabilises` | src/hcuopt/agent/patch_identity.py:16-36 | for every text, three applications equal two |
| `PatchIdentity.NormalizeIdempotentIff` | src/hcuopt/agent/patch_identity.py:28-33 | two applications equal one exactly when no file header line has a blank just before its first tab |
| `Samples.NormalizeChangesAgain` | src/hcuopt/agent/patch_identity.py:28-33 | a concrete file header that the second normalization changes again |
| `IdentityIgnores.SameIdentityIff` | src/hcuopt/agent/patch_identity.py:16-36 | two patches share an identity exactly when the same normalized lines are left |
| `IdentityIgnores.TrailingBlanksIgnored` | src/hcuopt/agent/patch_identity.py:28-28 | blanks at the end of a line do not count |
| `IdentityIgnores.IndexLineIgnored` | src/hcuopt/agent/patch_identity.py:29-30 | index lines do not count |
| `IdentityIgnores.StampIgnored` | src/hcuopt/agent/patch_identity.py:31-32 | what follows the tab of a file header does not count |
| `IdentityIgnores.BlankTailIgnored` | src/hcuopt/agent/patch_identity.py:34-35 | blank lines at the end do not count |
| `IdentityIgnores.LineEndsIgnored` | src/hcuopt/agent/patch_identity.py:27-27 | CRLF and LF line ends give one identity |
| `IdentityIgnores.CrEndsIgnored` | src/hcuopt/agent/patch_identity.py:27-27 | CR line ends give the same identity too |
| `Dedupe.HeaderOfNormal` | src/hcuopt/agent/patch_identity.py:27-33 | a hunk header reads the same before and after normalization, unless its trailing blanks start with a tab |
| `Dedupe.SameIdentityLines` | src/hcuopt/agent/patch_identity.py:16-36 | equal identities: the same lines after normalization, up to trailing empty ones |
| `Dedupe.HunksAlike` | src/hcuopt/agent/patch_identity.py:16-36 | two patches of one identity have the same hunks in the same places, up to trailing blanks |
| `Dedupe.AlikeSplices` | src/hcuopt/adapters/agent_promotion.py:463-523 | hunks alike up to trailing blanks, both matching one baseline, differ only on inserted lines |
| `Dedupe.DedupeSound` | src/hcuopt/agent/patch_identity.py:16-40 | equal identities that both apply to one baseline make the same change up to trailing blanks on inserted lines |
| `Dedupe.DedupeSoundLines` | src/hcuopt/agent/patch_identity.py:16-40 | on LF-terminated texts the two results pair up line by line |
| `Disposition.FinalizeProposalDispositions` | src/hcuopt/agent/authority.py:405-448 | the sort, the dictionary loop and the second sort compute the specified function |
| `Disposition.FinalizeMembers` | src/hcuopt/agent/authority.py:405-448 | for distinct ids the output is in plan order and holds each proposal once, settled by the least proposal of its group: a definition without dictionary or loop |
| `Disposition.OrderIndependent` | src/hcuopt/agent/authority.py:408-417 | every permutation of the input gives the same output |
| `Disposition.OneRetainedEach` | src/hcuopt/agent/authority.py:418-437 | each normalized hash keeps exactly one proposal, the least in plan order; every other points directly at it and never at itself |
| `Disposition.FinalizeIdempotent` | src/hcuopt/agent/authority.py:405-448 | finalizing again changes nothing |
| `Disposition.RetainedCountIsHashes` | src/hcuopt/agent/authority.py:418-437 | as many proposals are retained as there are distinct normalized hashes |
| `Disposition.DuplicateSource` | src/hcuopt/agent/authority.py:430-437 | a duplicate carries the id of a different, retained proposal with the same hash |
| `Disposition.FinalOrder` | src/hcuopt/agent/authority.py:408-448 | the result stands in plan order, by generator, ordinal, hash and identity, the first difference deciding; what a duplicate points at comes before it |
| `Redundancy.DuplicatesAreRedundant` | src/hcuopt/agent/authority.py:405-448 | with a collision-free digest, the patch of every dropped duplicate makes the same change as the retained patch it points at |
| `SourceTree.FrameInjective` | src/hcuopt/source_hash.py:12-15 | a length-framed value and what follows it can be told apart |
| `SourceTree.EncodeAllInjective` | src/hcuopt/source_hash.py:40-57 | the stream decodes into one sequence of records only |
| `SourceTree.SortOrdered` | src/hcuopt/source_hash.py:33-33 | sorting a listing with distinct names gives strictly increasing names |
| `SourceHash.CanonicalMeaning` | src/hcuopt/source_hash.py:32-50 | visiting in sorted order at every level does not change what tree is meant |
| `SourceHash.CanonicalUnique` | src/hcuopt/source_hash.py:32-50 | two sorted trees that mean the same are the same |
| `SourceHash.WalkInjective` | src/hcuopt/source_hash.py:32-62 | the flat sequence of records determines the tree, nesting and empty directories included |
| `SourceHash.StreamCharacterizesTree` | src/hcuopt/source_hash.py:18-65 | two accepted trees feed the hash the same bytes exactly when they have the same names, kinds, executable bits, link targets, contents and empty directories, apart from the root .git |
| `SourceHash.StreamOrderBlind` | src/hcuopt/source_hash.py:32-36 | listing order and the root .git change neither the verdict nor the bytes |
| `SourceWalk.Hasher.UpdateFrame` | src/hcuopt/source_hash.py:12-15 | one frame on the running hasher; a length past eight bytes is an error |
| `SourceWalk.Hasher.UpdateFile` | src/hcuopt/source_hash.py:52-59 | a file adds its whole record, its content in chunks |
| `SourceWalk.SortCanonical` | src/hcuopt/source_hash.py:33-33 | sorting a level first or the levels below first makes no difference |
| `SourceWalk.Visit` | src/hcuopt/source_hash.py:32-62 | the recursive loop feeds the hasher the encoding of the sorted walk, and fails exactly on special files and lengths that do not fit |
| `SourceWalk.HashedStream` | src/hcuopt/source_hash.py:18-65 | the root must be a directory; the collected bytes are the stream of the tree |
| `Archive.AddDirectory` | src/hcuopt/adapters/noop_builder.py:162-203 | the archive walk of its own appends exactly the images of the records the hashing walk would visit |
| `Archive.WriteDeterministicTar` | src/hcuopt/adapters/noop_builder.py:157-203 | for every tree the hash accepts the archive is, entry for entry and in order, the image of what was hashed |
| `Archive.ArchiveMatchesStream` | src/hcuopt/adapters/noop_builder.py:157-203 | two accepted trees have equal archives exactly when they have equal hashed streams |
| `TreeBytes.EncodeIs` | src/hcuopt/source_hash.py:12-62 | the bytes of every record: its kind in ASCII, its path, and a link's target or a file's framed length and content |
| `TreeBytes.FrameIs` | src/hcuopt/source_hash.py:12-15 | a frame is the eight bytes of a length, the most significant first, and as many bytes |
| `TreeBytes.ImageIs` | src/hcuopt/adapters/noop_builder.py:162-203 | an archived entry has its record's name, kind, target and content, no owner and no time, and mode 0777, 0755 or 0644 |
| `TreeBytes.StreamSample` | src/hcuopt/source_hash.py:18-65 | the bytes of a tree of one file |
| `Budget.SumUsage` | src/hcuopt/agent/authority.py:214-218 | partial sums never fail unless the total does: the sum is refused exactly when the total passes a field bound |
| `BudgetSafety.GeneratorCharge` | src/hcuopt/contracts/agent_v1.py:165-198 | one generator, whatever its attempts did, never charges more than the plan demands for it, although proposals are not multiplied by attempts |
| `BudgetSafety.BudgetHolds` | src/hcuopt/contracts/agent_v1.py:767-772 | reservations held plus consumption fit the budget in all five dimensions |
| `BudgetSafety.EndKeeps` | src/hcuopt/storage/agent_generation.py:349-375 | ending a running attempt keeps the ledger balanced and frees one running place |
| `BudgetSafety.AddKeeps` | src/hcuopt/storage/agent_generation.py:377-394 | a retry, made only after a failure without success and within the plan, adds one reservation and nothing else |
| `BudgetSafety.RecountKeeps` | src/hcuopt/storage/agent_generation.py:506-590 | the stored record meets its own contract and the corrupt-budget branch is not taken |
| `BudgetSafety.ClaimKeeps` | src/hcuopt/storage/agent_generation.py:614-719 | a claim moves no money and respects the concurrency bound |
| `BudgetSafety.SettleKeeps` | src/hcuopt/storage/agent_generation.py:790-1030 | a settlement, successful, failed, over its reservation or refused, keeps the invariant |
| `BudgetSafety.StartAccepted` | src/hcuopt/agent/authority.py:266-334 | a valid plan is started exactly when the request is bound to its key and plan and allows the plan's proposals: summing the reservations never passes a bound, and the first record meets its contract |
| `BudgetSteps.ReconcileAt` | src/hcuopt/storage/agent_generation.py:453-504 | the passes over the generators do not interfere: an expired attempt is failed and charged in full, and a retry follows exactly a failed newest attempt, without success, while attempts remain |
| `BudgetSteps.SettleCharges` | src/hcuopt/storage/agent_generation.py:902-946 | a settlement charges what was reported, or the whole reservation without proposals when usage is unknown or over, and in the same call the other generators' expired attempts; it records as many proposals as are due, and is retried exactly when it failed early enough |
| `BudgetSafety.Reachable` | src/hcuopt/storage/agent_generation.py:429-590 | the invariant holds in every state reached by claims, settlements, expired leases, retries and reviews |
| `BudgetSafety.BudgetSafe` | src/hcuopt/contracts/agent_v1.py:743-791 | in every run the budget holds in all five dimensions, no usage bound or record check rejects, the running attempts respect the concurrency, and the budget is never found corrupt |
| `BudgetSafety.LedgerBalances` | src/hcuopt/contracts/agent_v1.py:494-529 | in every run the ledger balances: reserved is held or settled, settled is what attempts used, each entry meets its contract |
| `BudgetSafety.ClosedIsFinal` | src/hcuopt/storage/agent_generation.py:436-439 | a closed run has nothing running and no step but the review changes it |
| `BudgetSteps.NeverStuck` | src/hcuopt/storage/agent_generation.py:429-590 | in every run that is not closed some generator's newest attempt is pending or running |
| `BudgetProgress.ClaimTakesFirst` | src/hcuopt/storage/agent_generation.py:664-707 | in an active run with a place free a claim starts the newest attempt of the first generator that has it pending, and changes nothing else |
| `BudgetProgress.ClaimChangesIff` | src/hcuopt/storage/agent_generation.py:629-678 | otherwise, and only otherwise, a claim changes nothing |
| `BudgetProgress.RunningCountIs` | src/hcuopt/storage/agent_generation.py:651-661 | the count that bounds concurrency is the number of generators whose newest attempt is running |
| `BudgetProgress.CanClose` | src/hcuopt/storage/agent_generation.py:429-590 | from every state that can be reached a run can be closed, within as many claims and settlements as are left and one step more |
| `BudgetProgress.WholeRun` | src/hcuopt/storage/agent_generation.py:429-590 | a whole run needs at most two steps for each attempt that its plan allows, and one to begin with |
| `BudgetRecord.RecordIsCurrent` | src/hcuopt/storage/agent_generation.py:506-590 | in every run the stored record tells the attempts made, those still pending or running, the generators that are through, and what is reserved and consumed |
| `BudgetRecord.EndIs` | src/hcuopt/storage/agent_generation.py:536-562 | in every run: closed exactly when every generator is through; then it awaits review if it has a proposal, with one retained for each patch identity, and has failed for want of proposals otherwise |
| `BudgetRecord.FirstSteps` | src/hcuopt/storage/agent_generation.py:440-450 | nothing can be claimed before the first reconciliation; then the first generator's attempt is |
| `BudgetLedger.LedgerIsComplete` | src/hcuopt/storage/agent_generation.py:349-394 | in every run, of any plan, the ledger has exactly one reservation for each attempt and exactly one settlement once it has ended, each with what the attempt reserved and used, and no other entry |
| `BudgetRecord.SettleChangesIff` | src/hcuopt/storage/agent_generation.py:790-946 | a settlement takes effect exactly for a running attempt and a report within the plan's proposals and the field bounds |
| `BudgetRecord.DemandBounds` | src/hcuopt/contracts/agent_v1.py:165-198 | a plan whose budget is its demand is valid, and any smaller budget is not |
| `BudgetRecord.PlanBounds` | src/hcuopt/contracts/agent_v1.py:165-198 | at most eight generators and a concurrency of at most four and no more than there are |
| `BudgetRecord.StartRefusal` | src/hcuopt/agent/authority.py:266-334 | which refusal a start raises: the first check that fails; the usage bound never does |
| `Capture.TakeChunk` | src/hcuopt/adapters/agent_runner.py:464-490 | the locked section of a reader |
| `Capture.CaptureExact` | src/hcuopt/adapters/agent_runner.py:464-490 | in every interleaving each capture is its stream cut at its limit, the total is the sum, and a reason is set exactly when some limit was passed |
| `Capture.InterleavingsAgree` | src/hcuopt/adapters/agent_runner.py:464-490 | which reader got the lock first shows only in the reason given |
| `Runner.SucceededIff` | src/hcuopt/adapters/agent_runner.py:974-1048 | a run is recorded as a success exactly when cleanup is verified, the exit code is zero, no deadline passed, no limit was exceeded, the reported tokens fit, the attempt number is at most 8 and both quotations fit |
| `Runner.SucceededComplete` | src/hcuopt/adapters/agent_runner.py:997-1049 | success means complete output within all limits, under its true digest |
| `Runner.StatusDecided` | src/hcuopt/adapters/agent_runner.py:997-1023 | the status and reason of every recorded run with verified cleanup, from what the process really wrote, not from what the loop saw |
| `Runner.ExecuteYields` | src/hcuopt/adapters/agent_runner.py:330-396 | a finished execution yields a result exactly when the attempt number is at most 8 and what the process had written when each stream was read, cut at its limit, is quoted in at most 4096 characters |
| `Runner.KnownToYield` | src/hcuopt/adapters/agent_runner.py:330-396 | the lengths of the environment values alone can decide that a result is yielded, whatever the process writes |
| `Runner.LongValuesYield` | src/hcuopt/adapters/agent_runner.py:330-396 | at most one value shorter than its fourteen-character mark and none under eight characters is enough |
| `Runner.NinthAttemptLost` | src/hcuopt/adapters/agent_runner.py:186-187 | attempt 9 is allowed by the limits and yields nothing |
| `Runner.OnesLost` | src/hcuopt/adapters/agent_runner.py:147-152 | a concrete run, 1024 ones under an environment value `1`, that meets every limit and yields nothing |
| `Runner.EvidenceIs` | src/hcuopt/adapters/agent_runner.py:330-396 | every field of a yielded record, from what the process wrote before each read; with an unverified cleanup the reason is what the loop saw |
| `Unicode.DecodeCut` | src/hcuopt/adapters/agent_runner.py:147-148 | encoding a message, cutting it at any byte and decoding with replacement shows exactly the characters that start before the cut, the last one as a replacement if it is cut |
| `Unicode.VisibleAtMost` | src/hcuopt/adapters/agent_runner.py:147-148 | at most k characters show exactly when there are no more or the first k fill the bytes |
| `Malformed.HeadIs` | src/hcuopt/adapters/agent_runner.py:147-148 | decoding any bytes: the character whose encoding they start with, or a replacement for as many bytes as could begin a character, and for at least one |
| `Redaction.RedactLength` | src/hcuopt/adapters/agent_runner.py:40-43 | redacting assigned secrets empties no text and turns seven characters into at most sixteen |
| `Redaction.ReplaceLength` | src/hcuopt/adapters/agent_runner.py:150-151 | the length after replacing a value, from the occurrences that are taken |
| `Redaction.SummaryBound` | src/hcuopt/adapters/agent_runner.py:147-152 | the longest a summary can become, from the lengths of the values |
| `Masking.SecretIs` | src/hcuopt/adapters/agent_runner.py:40-43 | the reader of the pattern finds exactly a keyword, blanks, a sign, blanks and a value that goes on as long as it can |
| `Masking.RedactMasks` | src/hcuopt/adapters/agent_runner.py:149-149 | redaction replaces the values of the leftmost assignments at word boundaries and keeps everything else in order; every assignment is one of them or begins inside a value that is replaced |
| `Masking.LeftmostUnique` | src/hcuopt/adapters/agent_runner.py:149-149 | there is only one such choice |
| `Masking.RedactedClean` | src/hcuopt/adapters/agent_runner.py:149-149 | in a redacted text every keyword at a word boundary that is given a value is given the mark |
| `Masking.RedactSamples` | src/hcuopt/adapters/agent_runner.py:149-149 | three literal texts and what they become |
| `EnvValues.ReplaceMasks` | src/hcuopt/adapters/agent_runner.py:150-151 | replacing a value takes its leftmost occurrences that do not overlap and keeps the rest in order |
| `EnvValues.LongestFirstSorted` | src/hcuopt/adapters/agent_runner.py:150-150 | longer values are replaced before shorter ones, and none is left out |
| `EnvValues.ValuesHidden` | src/hcuopt/adapters/agent_runner.py:146-152 | a value that shares no character with its mark does not occur in the summary, whatever the output and the other values are |
| `Runner.RunYields` | src/hcuopt/adapters/agent_runner.py:759-804 | `run` returns a result exactly when both records can be built |
| `Runner.RemovalReported` | src/hcuopt/adapters/agent_runner.py:783-800 | a failed removal is recorded exactly when its message is not empty and what shows of its first 1024 bytes redacts to at most 1000 characters; it then exposes no output |
| `Runner.KeywordFreeRemoval` | src/hcuopt/adapters/agent_runner.py:783-800 | for a message without secret keywords: exactly when it has 1 to 1000 characters, or its first 1000 fill 1024 bytes |
| `Runner.PlainRemoval` | src/hcuopt/adapters/agent_runner.py:783-800 | for plain ASCII that names no keyword or assigns nothing: exactly 1 to 1000 characters |
| `Runner.ShortRemoval` | src/hcuopt/adapters/agent_runner.py:783-800 | any message of 1 to 437 characters is recorded |
| `Runner.RemovalExamples` | src/hcuopt/adapters/agent_runner.py:783-800 | the empty message and 1001 ASCII letters are raised, 1001 two-byte letters are recorded |
| `ReceiptStore.Store.PublishOnce` | src/hcuopt/adapters/agent_runner_receipt.py:48-73 | write-once publication of one file |
| `ReceiptStore.Store.Publish` | src/hcuopt/adapters/agent_runner_receipt.py:82-141 | publication succeeds exactly for coherent results within the size limits, never on a store conflict, and returns the reference under which the receipt is held |
| `ReceiptStore.Store.Load` | src/hcuopt/adapters/agent_runner_receipt.py:143-190 | loading succeeds exactly for references to held receipts, and returns that receipt |
| `ReceiptStore.RunnerResultPublishable` | src/hcuopt/adapters/agent_runner_receipt.py:94-124 | what `run` returns, after a failed removal too, is refused only for the size of the output or of the receipt: the length and digest checks cannot fail |
| `ReceiptStore.PlannedOutputFits` | src/hcuopt/adapters/agent_runner_receipt.py:94-106 | under a planned output limit the store's own output limit cannot be reached |
| `Publication.WriteOnce` | src/hcuopt/adapters/agent_generator.py:52-75 | under any interleaving and any crashes a path shows nothing or the whole payload of one publisher, and never changes |
| `Publication.SuccessesAgree` | src/hcuopt/adapters/agent_generator.py:52-75 | two publishers that succeeded at one path had equal payloads |
| `Publication.ReplayCompletes` | src/hcuopt/adapters/agent_generator.py:54-75 | after any run a new publisher that contradicts nothing on the disk completes when left alone |
| `Publication.ContradictionNeverCompletes` | src/hcuopt/adapters/agent_generator.py:55-58 | a publisher that contradicts the disk completes in no continuation |
| `Publication.CrashEnds` | src/hcuopt/adapters/agent_generator.py:52-75 | a crashed publisher stays where it stood in every continuation, and the disk is as it was |
| `Publication.ContradictionRefused` | src/hcuopt/adapters/agent_generator.py:55-58 | a publisher that finds other bytes at its path is refused when left alone, and the disk is as it was |
| `Decisions.RecordsAreBound` | src/hcuopt/adapters/agent_promotion.py:142-156 | a stored record is the one its identity names, and its idempotency key is bound to it |
| `Decisions.OneDecisionPerKey` | src/hcuopt/adapters/agent_promotion.py:211-233 | one idempotency key has at most one recorded decision of its kind |
| `Decisions.ReplayIffUnclaimed` | src/hcuopt/adapters/agent_promotion.py:142-186 | after any run a decision can still be published exactly when its key is free or already bound to it |
| `AtMostOnce.InvokedAtMostOnce` | src/hcuopt/agent/messages_worker.py:120-178 | each attempt invokes the runner at most once over all workers, crashes and recoveries, and never from a recovery |
| `AtMostOnce.ResultsAgree` | src/hcuopt/agent/messages_worker.py:181-214 | every result of an attempt that is brought to settlement has the same receipt and the same batch, and nothing else can have been settled |
| `AtMostOnce.RecoveryIff` | src/hcuopt/agent/messages_dispatch.py:91-132 | a recovery left alone finishes exactly when the claim names the run, input and receipt index are there, the result can be rebuilt, and the repository knows the attempt under the claim, passes the evidence, and has it settled or running under a lease that lasts; it writes no file and runs nothing |
| `Execution.ExecutionIff` | src/hcuopt/agent/messages_worker.py:120-214 | from any state an execution that nobody disturbs finishes exactly when the attempt was not started and no other claim, input or index is in its place, it is authorized, the receipt is its own, the batch can be rebuilt and the row is settled so or running under the token and a lease that lasts; it runs once or not at all, and what it recorded is indexed even when it cannot settle |
| `Execution.UntouchedExecutionIff` | src/hcuopt/agent/messages_worker.py:120-214 | for an attempt without files, in every run: exactly when authorized, answered with its own receipt, rebuilt, and running under its token and a live lease |
| `Execution.WholeAttempt` | src/hcuopt/agent/messages_dispatch.py:78-97 | from its queueing on: a handed-out attempt is settled exactly when authorized, answered, rebuilt, valid and in time under its token; one whose lease has passed is neither settled nor handed out again |
| `AtMostOnce.CrashStops` | src/hcuopt/agent/messages_worker.py:120-178 | a crash ends a process for good and changes nothing else |
| `AtMostOnce.SettlementIsFinal` | src/hcuopt/storage/agent_generation.py:871-902 | a settled attempt keeps its result in every continuation |
| `Ingest.IngestProposals` | src/hcuopt/adapters/messages_generator.py:306-370 | the loop computes the specified batch, all or nothing: the reply is read strictly, its usage must be the recorded one, every proposal must have one edit encoding within bounds, trimmed texts, a safe Python path and a patch that applies; a failed batch stores nothing |
| `Ingest.SucceededMeans` | src/hcuopt/adapters/messages_generator.py:306-370 | a succeeded batch holds every proposal in order under the digests of its patch; each patch applies, and a replacement is one occurrence whose patch makes exactly that edit |
| `Ingest.PatchesFitStore` | src/hcuopt/adapters/agent_generator.py:114-116 | the patch store never refuses an accepted patch for its size |
| `Ingest.UsageTokensIs` | src/hcuopt/generators/anthropic_messages.py:70-88 | the tokens are the sum of the four fields, of which the two of the cache may be missing, and nothing if one is no count |
| `Proposals.SucceedsIff` | src/hcuopt/adapters/messages_generator.py:306-370 | a batch succeeds exactly when the reply is a finished message of the asked model, all text, under the recorded usage, that reads as one to eight proposals, no more than asked for, each in order; and which error it has otherwise |
| `Proposals.AcceptableIff` | src/hcuopt/adapters/messages_generator.py:326-370 | a proposal is in order exactly when its three texts are neat and bounded, the path is safe, and it has one encoding: a patch that applies, or a replacement that the builder takes |
| `Proposals.SafePathIff` | src/hcuopt/contracts/agent_v1.py:25-35 | a path is taken exactly when it is non-empty, undotted parts between slashes, without backslash, ending in .py or .pyi |
| `Recovery.ResultIsIngested` | src/hcuopt/agent/messages_worker.py:201-210 | in every run a result with a batch carries what ingestion makes of the attempt's one receipt and input |
| `Recovery.RebuiltIff` | src/hcuopt/agent/messages_worker.py:181-214 | a result is rebuilt exactly when the bindings hold and, for a successful execution, the input reads and the reply has at most 2 MiB |
| `Lease.ResourceLease.Acquire` | src/hcuopt/leases.py:6-10 | an acquisition is the specified step and returns one more than the token before |
| `Lease.ResourceLease.Operate` | src/hcuopt/leases.py:6-34 | every handler is its step of the lease table; only an acquisition returns a token |
| `Lease.RegrantNeedsCleaning` | src/hcuopt/domain/transitions.py:115-125 | between two grants the lease was given up or expired, then fenced, cleaned and found healthy, in this order |
| `Lease.QuarantineIsFinal` | src/hcuopt/domain/transitions.py:115-125 | after quarantine no operation succeeds any more |
| `Lease.ReleaseIsNewestGrant` | src/hcuopt/leases.py:13-15 | only the newest grant can be released, and two grants never share a token |
| `Lease.RegrantableIff` | src/hcuopt/domain/transitions.py:115-125 | after any operations the resource can be granted again, to anybody and under the next token, exactly when it is not quarantined |
| `Lease.SucceedsIff` | src/hcuopt/leases.py:6-34 | from where each operation succeeds and where it leads |
| `Fencing.RunLease` | src/hcuopt/leases.py:6-34 | a lease under any calls hands out exactly the tokens that are counted from the events |
| `Fencing.FencingGuard.BeforeExecute` | src/hcuopt/adapters/execution.py:179-186 | admission compares with and raises the high-water mark |
| `Fencing.FencingGuard.BeforeResult` | src/hcuopt/adapters/execution.py:188-194 | a result passes under the current mark only |
| `Fencing.AdmitIff` | src/hcuopt/adapters/execution.py:179-186 | in every run a token is admitted exactly when it is at least every token admitted before on the resource |
| `Fencing.ReleaseIff` | src/hcuopt/adapters/execution.py:238-308 | in every run a result is released exactly when its token was admitted and is the greatest admitted so far |
| `Fencing.NoneSmallerAfter` | src/hcuopt/adapters/execution.py:172-194 | once a token is admitted no smaller one is admitted or released |
| `Fencing.ReleaseIsNewestLease` | src/hcuopt/leases.py:6-10 | a released result belongs to the newest lease admitted on its resource |
| `Cleaner.Fence` | src/hcuopt/adapters/resource_cleaner.py:36-77 | the loop sorts every listed container into removed, newer or failed |
| `Cleaner.Cleanup` | src/hcuopt/adapters/resource_cleaner.py:109-112 | fence first, then the health check, on what Docker answers at each moment |
| `Cleaner.ReportIs` | src/hcuopt/adapters/resource_cleaner.py:40-67 | a listed container is preserved exactly when it bears a token greater than the cleanup's, removed exactly when it does not and its removal did not fail, and otherwise a failure |
| `Cleaner.HealthyIff` | src/hcuopt/adapters/resource_cleaner.py:109-130 | healthy means exactly: both listings succeeded, every container listed at the fence was newer or was removed, the device answered, and the second listing was empty |
| `Cleaner.CleanupSucceeds` | src/hcuopt/adapters/resource_cleaner.py:109-130 | when every command answers, no token is greater and nothing appears meanwhile, all containers are removed and the cleanup is healthy |
| `Cleaner.RemovesNoNewer` | src/hcuopt/adapters/resource_cleaner.py:54-59 | nothing removed had a token greater than the cleanup's |
| `Cleaner.FailedListingUnhealthy` | src/hcuopt/adapters/resource_cleaner.py:114-130 | a failed listing, at the fence or at the check, is never healthy |
| `Cleaner.HealthyIsTrustworthy` | src/hcuopt/adapters/resource_cleaner.py:154-161 | healthy means both listings succeeded, no owned container was left at the check, and all that were there at the fence are gone for good |
| `CandidateCache.Builder.Lookup` | src/hcuopt/adapters/build_cache.py:28-40 | a recorded entry is found with its artifact in place |
| `CandidateCache.Builder.Record` | src/hcuopt/adapters/build_cache.py:42-76 | an entry is written once |
| `CandidateCache.Builder.BuildCandidate` | src/hcuopt/adapters/manual_candidate.py:298-432 | one builder left alone, over any sequence of builds: the result agrees with a fresh build in identity, candidate, snapshot, recipe, bound metadata and content, validation accepts it, and neither collision nor identity mismatch occurs |
| `CandidateCache.FreshIs` | src/hcuopt/adapters/manual_candidate.py:357-427 | what a build publishes, in the terms of the job that asked for it |
| `CandidateCache.SameKey` | src/hcuopt/adapters/manual_candidate.py:434-454 | a cache key fixes the reviewed manifest and the intake |
| `CandidateCache.SharedEntrySameRequest` | src/hcuopt/adapters/manual_candidate.py:434-454 | two jobs that share a cache entry are the same request |
| `BuildRace.FinishedAgrees` | src/hcuopt/adapters/manual_candidate.py:357-427 | several builders, every interleaving: a finished build agrees with a fresh build of its own task, is what the cache holds, and validates |
| `BuildRace.FailuresExplained` | src/hcuopt/adapters/manual_candidate.py:357-427 | why a build fails in every run: package, worktree, content, or a collision after a race; never an unreadable entry, a missing artifact or an identity mismatch |
| `BuildRace.CollidesIff` | src/hcuopt/adapters/build_cache.py:42-76 | a record collides exactly when the cached artifact has another creation time or adapter provenance |
| `BuildRace.TwoMisses` | src/hcuopt/adapters/build_cache.py:65-73 | two builders of one task that both miss: the second record collides, and a retry finishes with the first one's artifact |
| `BuildRace.HitFinishes` | src/hcuopt/adapters/build_cache.py:28-40 | after any run a builder that finds its key finishes with the cached artifact |
| `BuildRace.MissFinishes` | src/hcuopt/adapters/manual_candidate.py:357-427 | after any run a builder that misses and is then left alone finishes with its own |
| `ScriptedStart.SaveStartRequest` | web/src/scripted-start.js:19-31 | saving finds the row of the preview, refuses a different one, appends otherwise |
| `ScriptedStart.OneFrozenRequest` | web/src/scripted-start.js:68-99 | across submits, failures and reloads every POST for a preview carries the saved request, and a loaded page has at most one in flight |
| `ScriptedStart.NoPostAfterReceipt` | web/src/scripted-start.js:79-99 | once a page holds a validated receipt it sends no further POST for that preview, and the receipt matches the request |
| `ScriptedStart.SubmitSendsIff` | web/src/scripted-start.js:79-99 | exactly when a submit sends its POST, and what it saves |
| `ScriptedStart.RestartCompletesIff` | web/src/scripted-start.js:19-99 | after any run: reload, open, submit, answer; the page ends with the receipt exactly when no other request is saved for the preview and the receipt agrees with the request in every field, and nothing stays in flight |

## Left out

- Text is a sequence of characters with LF line ends: UTF-8 decoding errors and the other separators of `splitlines` in the applier are not modelled, and `\d` in a hunk header is an ASCII digit. `PatchIdentity` does treat CR and CRLF.
- The diff library's search for an edit script is not modelled: any script between the two texts is taken; its grouping into hunks and its printing are.
- Builder.UnifiedDiffApplies: a script that changes an unterminated last line is not covered, as the printed lines run together; that the diff library leaves such a line in a closing unchanged stretch is a condition.
- Posix.OutcomesAgreeIff: stated for LF-terminated texts; `Posix.SplicesAgree` is not so restricted.
- In the hashing and archive walks a file's recorded size is the length of its content, and the file system gives non-empty, slash-free, distinct names; reading while files change is not modelled. A tar entry is its header fields and data, not their bytes on disk.
- The budget machine takes lease times as a choice of which leases have passed, and the claim token as what singles out the newest attempt. Lease renewal moves no money and is left out, and so are the identity checks on receipts and batches, and cancellation, which nothing here performs.
- A reader that fails with an input error instead of reaching the end of its stream, the fields of the evidence that only identify (names, hashes of arguments and inputs, wall time), and all process signalling are not modelled; how a process ended and whether its tree is gone are choices of the environment.
- Which characters beyond ASCII are letters, for the word boundary of the redaction pattern, is a parameter.
- A crash is the end of a process. Loss of power between a link and its directory's write-back is not modelled.
- AtMostOnce.InvokedAtMostOnce: the steps before the marker that only refuse are one pure check. The identity bindings between claim, receipt and input in `Recovery`, and the repository's own validation at settlement, are conditions given from outside, and so are strict JSON parsing and lone surrogates in a reply.
- A settlement's effect on money and retries is in `Budget`, its effect on the attempt's evidence in `AtMostOnce`; the two are not one machine.
- The polling loop and the termination of a container in `execute`, container commands beyond listing, inspecting and removing, and the device probe's output are not modelled.
- Git worktrees, file modes and symlink checks around the candidate build are one choice of success or failure, and nothing else writes the cache or the artifact store.
- `freezeScriptedStart` and rendering are left out; a page is one event loop, and storage is written by this module alone.
- Routes, command lines, views, the measurement and verifier modules and the other tables of `domain/transitions` are not part of this model.
