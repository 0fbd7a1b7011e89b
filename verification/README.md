# Entity registry: verified model

A Dafny model of the entity registry's upload pipeline and of the pages that read what it stored. It
covers the validation of an upload, the four-pass write, the asynchronous job protocol around that
write, the graph traversals of the list and analytics pages, and the date, search and paging
arithmetic underneath. `dafny verify dfyconfig.toml` checks everything.

The model's own form follows the source: loops and objects that update fields are methods and classes
(`CycleDetector`, `Database`, `RegistryService`, `UploadJobsService`, the three sheet validators),
each proved against a pure description, and the theorems are about those descriptions.

## What the theorems say

1. **An upload is judged correctly.** Errors can only stand on rows of the upload at hand, yet over a
   sound registry the error list is empty exactly when the registry *merged with the upload* is sound:
   acyclic, and no child owned beyond 100%. Every single cycle gets an error. The sheet checks are
   characterized by the cells alone: what is one name, one percentage, one jurisdiction, one filing,
   and what a row may refer to. (`CycleDetection`, `GraphValidator`, `MergedGraph`,
   `UploadAcceptance`, the three sheet validators, `UploadReferences`)
2. **What is written is what was judged.** The validator works on joined names, the writer on ids, in
   chunks, in four passes, in two separate implementations. Both writers land on the merged graph,
   drop nothing, give the same tables for every chunk size and do nothing the second time. Every cell of
   an accepted sheet ends in its own column, and nothing else changes. (`UploadWriter`, `SyncWriter`,
   `WriteTheorems`, `Idempotence`, `WrittenColumns`, `StoredCells`)
3. **So every run is safe.** Runs are defined by the validator's own report and not by what it ought to
   say, and every sequence of uploads has one. From empty tables, any sequence of uploads keeps
   ownership acyclic and within 100%, and, with no condition on names, names and business ids unique
   and references resolved. Uploading the same files again changes nothing. (`StoreInvariant`,
   `Registry`, `Reupload`)
4. **A job is written at most once**, whatever requests, repeated callbacks, fallbacks, sweeps and
   crashes do. Every interleaving keeps all unique and referential constraints, and the two global
   ones as well when no commit falls between a batch's acceptance and its own commit.
   (`JobProtocol`, `AsyncSafety`, `AsyncUpload`)
5. **The pages show it faithfully**, with the exact condition where they do not. (`SubtreeQuery`,
   `ChildTree`, `Descendants`, `RegistryLinks`, `OwnershipShares`, `SqlLike`, `Pagination`,
   `Compliance`, `Dates`)

## Where a claim fails, and exactly when

- **Names and the key separator.** Edges are keyed by two names joined with `|||` and split again. That
  returns the edges if and only if no name contains the separator and no parent ends in `|`
  (`Names.SplitJoin`, `MergedGraph.SplitEdgesExact`). Two entities that own each other are reported if
  and only if both names are safe, and for every unsafe name there is an upload that is accepted and
  stores a cycle (`MergedGraph.MutualReportExact`, `HiddenCycle`). The two global rules are therefore
  proved for uploads with separator-safe names (`SafeUpload`), which a caller can check before the
  call. Unique keys, resolved references, the write theorems, rollback and idempotence need no
  condition on names; a verdict that depends on the graph report, such as `Reupload.ReuploadIsAccepted`,
  does.
- **One due date, two spellings.** The duplicate check compares due dates as text, so a filing can be
  repeated as `2024-01-31` and `01/31/2024`. Such an upload is accepted and its write fails, for every
  entity, day and state of the tables (`RespelledUpload`). A write
  of a clean batch fails if and only if a business id was taken in the meantime or two filings of one
  statement share entity, type and day (`Idempotence.WriteBatchExact`,
  `FilingSpellings.RespelledFilingSlipsThrough`).
- **Shared subsidiaries on one page.** Counts on the list page are multiplied by the number of walks
  from the page's roots, and the tree under a root is the graph's own exactly when everything owned
  from there is reached once or has nothing below it (`ChildTree.CountExact`,
  `ChildTree.ChildrenAreUnfolding`, `ChildTree.SharedSubsidiaryIsDoubled`).
- **The list query does not always end.** The comment above it says that FQs never are parents and that
  it always terminates. It ends if and only if no FQ reached from the page's roots leads back to its
  domestic entity (`RegistryLinks.ListQueryEndsExact`). Two accepted uploads suffice to break that: `r`
  owns `a` and `a` owns `b`, then `a` is registered as an FQ of `b`; `r` is a list root and its query
  never ends (`OwnerTurnedFq.ListQueryNeverEnds`).
- **Jobs are validated when they are queued.** Two jobs, each passing the validator when it is created, can both
  complete and close a cycle or allocate 120% of an entity (`QueuedUploads`). A commit keeps the
  registry sound exactly when the graph it merges into comes out sound, which is the case when nothing
  was committed since the acceptance (`AsyncSafety.CommitKeepsSoundExact`, `AsyncSafety.UndisturbedIsSafe`).
- **Failed does not mean unwritten.** A failed job has its batch in the tables if and only if its commit
  went unreported or the completion mark of its callback threw (`JobProtocol.FailedExact`,
  `JobProtocol.FailedYetWritten`). A completed job can still become failed, exactly while such a
  callback holds it (`JobProtocol.FinalStatusIsStable`).

Two places where the repository's text and code differ, and the model follows the code: `README.md:74-75`
promises a one-level expansion of the list where `buildChildren` recurses to any depth, and the comment
at `src/registry/compliance/compliance.util.ts:27` calls `daysBetween` timezone-safe where it reads
local date parts.

## How things are represented

- Percentages are integers in hundredths, which the accepted format and the `numeric(5,2)` column make
  exact. Dates are UTC day numbers over the arithmetic of section 21.4.1 of ECMA-262. A `WHERE ... LIKE`
  matcher follows section 9.7.1 of the PostgreSQL documentation.
- Entities are a map by `entity_name_key` with the id as a field, edges a map by pairs of ids, filings a
  map by entity, type and date. A statement that breaks a unique constraint, or meets a key twice, is
  `None` and changes nothing; ids come from a counter.
- The subtree query returns its rows level by level in the order of the link table.
- `BuildChildren` carries the graph as a ghost argument, only to show that its recursion ends.
- Publishing, the worker's fate, repeated deliveries, lost acknowledgements and throwing marks are
  nondeterministic steps of `JobProtocol`.

## Model

| member | source | states |
|---|---|---|
| `CycleDetection.DetectCyclicNodes` | src/registry/validation/graph-validator.ts:94-129 | For every finite adjacency map and every visiting order the search ends; everything it flags lies on wholly flagged cycles, and every cycle has an edge whose two ends are both flagged |
| `CycleDetection.CycleDetector.Visit` | src/registry/validation/graph-validator.ts:108-122 | One recursive visit keeps the path equal to what it was, the path being a walk through exactly the grey nodes; it finishes the node and uses up at least one white node |
| `CycleDetection.CycleDetector.FlagFrom` | src/registry/validation/graph-validator.ts:115-118 | The slice of the path from the grey node onwards is a real cycle, so everything flagged still lies on a flagged cycle |
| `CycleDetection.ReportDecidesAcyclicity` | src/registry/validation/graph-validator.ts:94-129 | The flagged set is empty if and only if the graph is acyclic, and every flagged node reaches itself |
| `CycleDetection.UnflaggedIsOrdered` | src/registry/validation/graph-validator.ts:108-122 | The order in which nodes turn black is a topological order of all edges but those between two flagged nodes |
| `GraphValidator.MergeEdges` | src/registry/validation/graph-validator.ts:30-42 | The loops over persisted edges and rows build the overlay: the last value of a joined key wins |
| `GraphValidator.BuildAdjacency` | src/registry/validation/graph-validator.ts:44-50 | The adjacency lists hold exactly the edges obtained by splitting the merged keys, no more and no fewer |
| `GraphValidator.SumByChild` | src/registry/validation/graph-validator.ts:72-76 | The total of each child is the sum over the merged keys whose second part is that child |
| `GraphValidator.ValidateOwnershipGraph` | src/registry/validation/graph-validator.ts:21-92 | The errors are those of a cycle report on the merged graph, followed by the percentage errors, in row order |
| `MergedGraph.SplitEdgesExact` | src/registry/validation/graph-validator.ts:33-46 | Splitting the joined keys gives the edges back if and only if no name clashes with the separator |
| `MergedGraph.RepresentsMerge` | src/registry/validation/graph-validator.ts:30-42 | The string-keyed overlay represents the overlay of the graph by name pairs |
| `MergedGraph.RepresentsTotals` | src/registry/validation/graph-validator.ts:72-76 | A total over joined keys equals the total over the graph by pairs |
| `MergedGraph.ErrorsPointAtRows` | src/registry/validation/graph-validator.ts:52-89 | Soundness of every single error: it stands on a row of this upload whose ends both lie on cycles, or whose child exceeds 100% |
| `MergedGraph.CycleErrorsExact` | src/registry/validation/graph-validator.ts:52-70 | Incremental cycle safety: over an acyclic base there is a cycle error if and only if the merged graph has a cycle, although only rows of this upload can carry it |
| `MergedGraph.EveryCycleHasAnError` | src/registry/validation/graph-validator.ts:52-70 | Over an acyclic base every single cycle of the merged graph, and not only some cycle, has an error on a row of this upload whose two ends reach and are reached from it |
| `MergedGraph.SomeRowClosesCycle` | src/registry/validation/graph-validator.ts:55-59 | If anything is flagged over an acyclic base, some row of the upload has both ends flagged |
| `MergedGraph.TotalErrorsExact` | src/registry/validation/graph-validator.ts:72-89 | Incremental over-100%: over a base within bounds there is no percentage error if and only if every child of the merged graph is within bounds |
| `MergedGraph.UntouchedTotal` | src/registry/validation/graph-validator.ts:37-42 | A child no row names keeps its total |
| `MergedGraph.VerdictExact` | src/registry/validation/graph-validator.ts:21-92 | Over a sound base the error list is empty if and only if the merged graph is acyclic and within 100% everywhere |
| `MergedGraph.MutualReportExact` | src/registry/validation/graph-validator.ts:33-70 | Two entities that own each other are reported if and only if both names are separator-safe: the condition on names is needed, for every name |
| `HiddenCycle.MutualUploadExact` | src/registry/validation/validation.service.ts:134-135 | Carried through the whole pipeline: such an upload is rejected if both names are safe, and otherwise written, leaving a cycle in the tables (pairs whose two joined keys coincide never get here: the sheet rejects them as duplicates) |
| `HiddenCycle.EveryUnsafeNameHidesACycle` | src/registry/validation/graph-validator.ts:33-46 | For every unsafe name there is a second, safe name with which it forms an upload whose cycle is not reported and is stored |
| `Names.SplitJoin` | src/registry/validation/graph-validator.ts:46 | Split of a join is the pair itself if and only if the first name is separator-safe and the second free of the separator |
| `Names.TrimExact` | src/registry/validation/common.ts:12-14 | Trimming cuts white space off both ends, all of it and nothing else |
| `Names.NormalizeExact` | src/registry/validation/common.ts:16-19 | Two spellings are one name if and only if, trimmed, they have one length and agree at every position up to the case of a letter |
| `Names.NormalizeHasNoCapitals` | src/registry/validation/common.ts:16-19 | No normalized name has a capital letter |
| `Names.NormalizeIdempotent` | src/registry/validation/common.ts:17-19 | A normalized name is a fixed point of normalization |
| `Names.NormalizeOfTrim` | src/registry/validation/common.ts:12-19 | Trimming a cell first changes neither its identity nor whether it is blank |
| `UploadWriter.WriteUploadBatch` | src/registry/upload-writer.ts:128-320 | The four passes over the database object land on the tables of the pure four-pass description, or fail when one of its statements fails; the returned counts are the batch sizes |
| `UploadWriter.WriteAtomically` | src/registry/upload-async.controller.ts:183-185 | Inside a transaction a failed or aborted write leaves the tables as they were |
| `UploadWriter.ReferencedNames` | src/registry/upload-writer.ts:187-200 | Every name any row can resolve is looked up |
| `UploadWriter.AgreeOnBatch` | src/registry/upload-writer.ts:187-208 | Looking up only the referenced names gives the same updates, edges and filings as the whole table would |
| `SyncWriter.WriteParsedRows` | src/registry/registry.service.ts:184-309 | Twin writers agree: the transaction body gives, for every prior state and chunk size, the result and the tables that the job writer gives for the converted rows |
| `SyncWriter.KeyByName` | src/registry/registry.service.ts:242-244 | Keying found entities by their normalized names is keying them by their key column |
| `SyncWriter.ParsedEdgesAgree` | src/registry/registry.service.ts:269-280 | Edge records built from parsed rows equal those built from the converted rows |
| `SyncWriter.ParsedFilingsAgree` | src/registry/registry.service.ts:285-299 | Filing records, with their dates printed at write time, equal those of the rows converted beforehand |
| `Collections.ChunkItems` | src/registry/util/chunk.ts:4-11 | The index loop produces the recursive description of consecutive slices |
| `Collections.ChunkPartitions` | src/registry/util/chunk.ts:4-11 | The chunks put together are the list, and each has between one and the given number of items |
| `Collections.GroupBy` | src/registry/util/group-by.ts:1-10 | The keys are exactly those that occur, and each list holds the items with that key in order |
| `Upserts.UpsertChunksIsPutAll` | src/registry/upload-writer.ts:150-183 | A chunked upsert is the row-by-row upsert of everything, exactly when no single statement repeats a key; otherwise it fails |
| `Upserts.ChunkSizeIrrelevant` | src/registry/upload-writer.ts:247-261 | With distinct keys the chunk size has no influence |
| `StoreInvariant.PutEntitySucceeds` | src/registry/upload-writer.ts:150-183 | On tables whose key is the normalized name, an entity upsert fails if and only if another entity holds the business id |
| `StoreInvariant.PutEntities` | src/registry/upload-writer.ts:150-183 | Whenever pass 1 succeeds every row is stored, ids and foreign references of everything else are unchanged, new ids are fresh, and all constraints hold |
| `StoreInvariant.FreeIdsAreWritable` | src/registry/upload-writer.ts:150-183 | If no row's business id belongs to another entity beforehand, pass 1 cannot fail at any row |
| `StoreInvariant.EveryIntermediateTable` | src/registry/upload-writer.ts:150-183 | Business-id safety after every single row of pass 1, not only at its end |
| `WriteTheorems.GrowthKeepsShares` | src/registry/upload-writer.ts:150-183 | New entities change nothing in the ownership graph read by name |
| `WriteTheorems.PutEdges` | src/registry/upload-writer.ts:233-261 | Write refines merge: upserting edges by id lands on the overlay of the same rows by name |
| `WriteTheorems.EveryEdgeResolved` | src/registry/upload-writer.ts:235-246 | No silent drops: each row gives exactly one edge record, in order |
| `WriteTheorems.EveryFilingResolved` | src/registry/upload-writer.ts:273-287 | No silent drops: each row gives exactly one filing record, in order |
| `WriteTheorems.EdgeKeysDistinct` | src/registry/upload-writer.ts:247-261 | Distinct pairs of names give distinct pairs of ids, so no statement of pass 3 meets an edge twice |
| `WriteTheorems.FilingChunksDistinct` | src/registry/upload-writer.ts:288-313 | A statement of pass 4 meets a filing twice if and only if its slice of rows repeats entity name, type and date |
| `WriteTheorems.FirstThreePasses` | src/registry/upload-writer.ts:135-261 | Once pass 1 has gone through, passes 2 and 3 succeed, keep every constraint, and the ownership graph is the merge of the old one with the rows |
| `WriteTheorems.MergeUploadedIsMerge` | src/registry/validation/graph-validator.ts:37-42 | The merge that the writer performs is the merge that the validator checked |
| `Idempotence.WriteBatchExact` | src/registry/upload-writer.ts:128-320 | For every clean batch and every table state: the write goes through if and only if no business id is taken by then and no statement of pass 4 repeats a filing; the result then does not mention the chunk size |
| `Idempotence.AfterWriteKeepsInvariant` | src/registry/upload-writer.ts:128-320 | The result keeps unique names, ids and business ids and all references, and its ownership graph is the merge |
| `Idempotence.ChunkSizeInvisible` | src/registry/upload-writer.ts:131 | Any two chunk sizes with which the write succeeds give the same tables |
| `Idempotence.WriteReflects` | src/registry/upload-writer.ts:128-320 | After a write every entity, domestic link, edge and filing of the batch is in the tables |
| `Idempotence.WriteIsIdempotent` | src/registry/upload-writer.ts:128-320 | A second write of the same batch succeeds and changes nothing |
| `WrittenColumns.WrittenByColumns` | src/registry/upload-writer.ts:128-320 | Column by column: after the write of a clean batch the record under each name has the row's name, type, details and business id, each FQ has the id stored under its domestic name, each edge its percentage, and each filing the content of the last row about it; ids are kept, and no other record, domestic link, edge or filing has changed |
| `StoredCells.WrittenCells` | src/registry/registry.service.ts:172-309 | From cell to column: after the write of a clean upload every trimmed cell of the three sheets is in its own column, every date as ISO text of the same day, every percentage as the number it denotes, and blank cells as nothing |
| `Reupload.ReuploadChangesNothing` | README.md:71-73 | Whatever the names and the tables: once an upload has passed, uploading the same files again on any day leaves the tables exactly as they are, whether it passes or not |
| `Reupload.ReuploadIsAccepted` | README.md:71-73 | On a sound registry an upload that was written is accepted again on any later day |
| `SheetChecks.JurisdictionExact` | src/registry/validation/common.ts:66-72 | A cell is a jurisdiction if and only if it is a country, or a country and a state with one slash between them, neither blank |
| `SheetChecks.DuplicateErrors` | src/registry/validation/entities-validator.ts:227-248 | The grouping loops report exactly the lines whose key occurs more than once |
| `SheetChecks.RepeatedByGroups` | src/registry/validation/entities-validator.ts:250-270 | A line has a repeated key if and only if it sits in a group of several lines |
| `EntitiesValidator.ValidateEntitiesSheet` | src/registry/validation/entities-validator.ts:36-308 | The errors are exactly, by line and column, those of faulty cells, repeated names and ids and unresolved domestic entities, and the rows kept are exactly the conversions of those on lines without any |
| `EntitiesValidator.NoBadLinesExact` | src/registry/validation/entities-validator.ts:227-305 | The sheet has no bad line if and only if each row is clean, normalized names and non-blank business ids are pairwise different, and each FQ names a row of the sheet whose type is Entity |
| `OwnershipValidator.ParsePercentExact` | src/registry/validation/ownership-validator.ts:7-122 | A cell is a percentage if and only if it is digits, optionally with a point and one or two more; its value is all the digits read as one number, scaled by the places |
| `OwnershipValidator.TrailingZero` | src/registry/validation/ownership-validator.ts:7-122 | A trailing zero changes nothing |
| `OwnershipValidator.PercentOfPrint` | src/registry/validation/ownership-validator.ts:7-122 | Printing a percentage with two decimals and reading it gives it back |
| `OwnershipValidator.SamePairExact` | src/registry/validation/ownership-validator.ts:135-144 | For separator-safe names two rows have one joined pair if and only if they name one parent and one child |
| `UploadReferences.EndCleanExact` | src/registry/validation/ownership-validator.ts:45-91 | An end of an edge passes if and only if some row of the same upload registers that name as an Entity |
| `UploadReferences.FiledEntityExact` | src/registry/validation/filings-validator.ts:64-120 | The entity of a filing passes if and only if some row of the same upload has that name and the jurisdiction of the filing |
| `OwnershipValidator.ValidateOwnershipSheet` | src/registry/validation/ownership-validator.ts:21-182 | The errors are exactly, by line and column, those of faulty ends and percentages and of repeated pairs, and the rows kept are the others with their percentages in hundredths |
| `OwnershipValidator.NoBadLinesExact` | src/registry/validation/ownership-validator.ts:135-181 | The sheet has no bad line if and only if every row is clean and the joined pairs of names are pairwise different |
| `FilingsValidator.ValidateFilingsSheet` | src/registry/validation/filings-validator.ts:33-240 | The errors are exactly, by line and column, those of faulty cells and of repeated keys, and the rows kept are the others |
| `FilingsValidator.SameKeyExact` | src/registry/validation/filings-validator.ts:189-194 | Two clean rows have one key if and only if they have one normalized entity name, one filing type and one spelling of the due date, whatever characters the names contain |
| `FilingsValidator.NoBadLinesExact` | src/registry/validation/filings-validator.ts:189-225 | The sheet has no bad line if and only if every row is clean and the triples of normalized name, type and due date as spelled are pairwise different |
| `UploadValidation.LoadExistingEdges` | src/registry/validation/validation.service.ts:154-163 | For any stored names: the list has exactly one entry for each persisted edge, with the stored names of its two ends and its percentage |
| `UploadValidation.ListingRepresents` | src/registry/validation/validation.service.ts:154-163 | In whatever order the edges are listed, their overlay represents the ownership graph by name, as long as the stored names are safe |
| `UploadValidation.OwnerDecides` | src/registry/validation/validation.service.ts:179-187 | With unique business ids, looking at the one owner found decides whether any other entity uses the id |
| `UploadValidation.ValidateBusinessIdsAgainstDb` | src/registry/validation/validation.service.ts:165-198 | There is no error if and only if no row's business id belongs to an entity of another name |
| `UploadAcceptance.ValidateUpload` | src/registry/validation/validation.service.ts:53-152 | For any names and any state of the registry: no error means that all sheets are clean, business ids are free and the graph report on everything stored is empty, and every row is kept; an error means that one of these fails |
| `UploadAcceptance.AcceptedIsClean` | src/registry/validation/entities-validator.ts:272-305 | Every name mentioned anywhere in a clean upload is an entity row of that upload, under distinct names, ids and pairs |
| `UploadAcceptance.BusinessIdsFreeExact` | src/registry/validation/validation.service.ts:184-187 | The check against the database agrees with what the unique index will say |
| `UploadAcceptance.GraphVerdict` | src/registry/validation/validation.service.ts:134-135 | Over a sound registry the graph report is empty if and only if the registry's own graph merged with the upload is sound |
| `UploadAcceptance.VerdictIsDetermined` | src/registry/validation/validation.service.ts:131-152 | Over a sound registry the order of edges and nodes cannot change the verdict: what may pass is acceptable, what may fail is not |
| `Registry.AcceptedWrite` | src/registry/registry.service.ts:172-309 | An accepted upload is written if and only if no filing statement repeats a natural key, and the written graph is the validated one |
| `Registry.StepKeepsInvariant` | src/registry/registry.service.ts:172-316 | Every upload, judged by the validator's own report, written or rolled back, keeps the invariant |
| `Registry.HistoryExists` | src/registry/registry.service.ts:172-316 | Every sequence of uploads, with whatever names, has a history of states |
| `Registry.RunIsSafe` | src/registry/registry.service.ts:172-316 | Whole-run safety: at every moment of every sequence of uploads from empty tables, each judged by the validator's own report, ownership is acyclic and no child exceeds 100% |
| `Registry.RunIsConsistent` | src/registry/registry.service.ts:172-316 | For uploads with any names at all: at every moment of every run names, ids and business ids are unique, and domestic entities, edge ends and filing entities exist |
| `Registry.RegistryService.ProcessUpload` | src/registry/registry.service.ts:172-316 | Always a step of such a run: rejected by a report that fails, or written as a whole or not at all; on a sound registry exactly the unacceptable uploads are rejected; failure changes nothing and the cache stays coherent |
| `Registry.RegistryService.GetAnalyticsBase` | src/registry/registry.service.ts:161-170 | A filled cache always equals the current tables |
| `SubtreeQuery.FetchSubtrees` | src/registry/registry.service.ts:87-119 | When no loop can be reached from the roots, the recursive query ends and its rows are one for each walk from a root, shorter walks first |
| `SubtreeQuery.QueryEndsExact` | src/registry/registry.service.ts:83-86 | The recursive query ends if and only if no loop of links can be reached from its roots |
| `SubtreeQuery.SubtreeHasAllWalks` | src/registry/registry.service.ts:100-118 | The walks listed are all walks from the roots, each exactly once |
| `SubtreeQuery.SubtreeMultiplicity` | src/registry/registry.service.ts:111-117 | Under each parent the rows are the parent's links in order, repeated once for every walk from the page's roots to it |
| `ChildTree.PageRowFits` | src/registry/registry.service.ts:472-546 | At every depth of every tree built: a subsidiary shows as its two counts the number of its own children that are subsidiaries and that are FQs, and an FQ shows 0, 0 and no children |
| `ChildTree.ChildrenShowLinks` | src/registry/registry.service.ts:472-524 | The children of a node are, in order, its FQ links and then its ownership links, each with the child and percentage of its link |
| `ChildTree.ChildrenAreUnfolding` | src/registry/registry.service.ts:472-524 | The tree built from the page's rows is the ownership graph's own unfolding under a root if and only if everything owned from there is reached by a single walk from the page's roots or has nothing below it |
| `ChildTree.CountExact` | src/registry/registry.service.ts:514-517 | The two counts a row shows are the true numbers times the number of walks from the page's roots to the node; each is right if and only if there is one walk or nothing to count |
| `ChildTree.SharedSubsidiaryIsDoubled` | src/registry/registry.service.ts:444-447 | Two roots on one page sharing a subsidiary: its only subsidiary is counted twice |
| `Hierarchy.WalkOfLevel` | src/registry/registry.service.ts:100-118 | Round n of the recursion holds exactly the walks of n links from the roots |
| `Descendants.CollectDescendants` | src/registry/registry.service.ts:668-685 | Ends on every edge list, cyclic or not, with exactly the ids reached by one or more edges, and exactly the FQs of those or of the root |
| `RegistryLinks.ListQueryEndsExact` | src/registry/registry.service.ts:83-99 | Where ownership is acyclic, the list query ends if and only if no FQ reached from the page's roots leads back to its domestic entity |
| `RegistryLinks.TerminalFqsSuffice` | src/registry/registry.service.ts:83-84 | FQs with nothing below them, as the source assumes, meet that condition and the next one |
| `RegistryLinks.DescendantsAreSubtree` | src/registry/registry.service.ts:668-685 | The analytics page collects exactly what the subtree query reaches below an entity if and only if nothing new hangs directly below a collected FQ |
| `OwnerTurnedFq.ListQueryNeverEnds` | src/registry/registry.service.ts:325-328 | For any three names: in every run of two accepted uploads, a chain of owners and then its middle registered as an FQ of what it owns, the top of the chain is a list root from which the query never ends |
| `OwnershipShares.ChildrenOfParent` | src/registry/registry.service.ts:717-752 | The bars are the selected parent's direct children that pass both filters, each with its name and its total over all parents |
| `OwnershipShares.BarsAddUp` | src/registry/registry.service.ts:743-752 | Where no child exceeds 100%, allocated and unallocated shares add up to exactly 100% for every entity |
| `OwnershipShares.TotalsAgree` | src/registry/registry.service.ts:717-724 | The total by id is the total the validator bounded by name |
| `JobTable.UploadJobsService.Claim` | src/registry/upload-jobs.service.ts:45-54 | Exactly the call that finds the job queued wins, and afterwards the job is not queued |
| `JobProtocol.JobsAsOrdered` | src/registry/upload-jobs.service.ts:24-76 | In every interleaving each job has the batch and the creation time of the action that created it, which is what its staleness at a cutoff goes by |
| `JobProtocol.WorkersAsStarted` | src/registry/upload-async.controller.ts:161-174 | In every interleaving a worker works on the job it was started for, and is a callback, which reads its job before claiming it, if and only if a delivery started it |
| `JobProtocol.FallbackMeansUnpublished` | src/registry/upload-async.controller.ts:130-139 | In every interleaving a request falls back only after its own publishing failed, and records the queue as the method only after it succeeded |
| `JobProtocol.StepKeeps` | src/registry/upload-async.controller.ts:161-196 | Every atomic step of requests, callbacks, fallbacks and sweeps keeps exclusive holding and the match between status and history |
| `JobProtocol.AtMostOnce` | src/registry/upload-jobs.service.ts:41-54 | In every interleaving a job is claimed at most once and committed at most once; queued means never committed, completed means committed exactly once with that result |
| `JobProtocol.FinalStatusIsStable` | src/registry/upload-async.controller.ts:178-193 | A final status, its result and its number of commits are stable over every continuation if and only if nobody holds the job; failed jobs always are, completed ones unless a callback's completion mark took effect and then threw |
| `JobProtocol.FailedExact` | src/registry/upload-async.controller.ts:183-193 | In every interleaving a failed job has exactly one commit if its commit went unreported or its callback's completion mark threw, and none otherwise |
| `JobProtocol.FailedIsUnwritten` | src/registry/queue-dispatch.service.ts:67-75 | When every commit is reported and every completion mark goes through, failed means not written |
| `JobProtocol.FailedYetWritten` | src/registry/upload-async.controller.ts:183-193 | Every queued job whose batch can be written has a continuation that ends with the job failed and its batch in the tables |
| `JobProtocol.RunsAreSerial` | src/registry/queue-dispatch.service.ts:64-76 | A step towards InterleavingsKeepConstraints: the log of commits accounts for the tables |
| `AsyncSafety.LateWriteKeepsConstraints` | src/registry/upload-async.controller.ts:183-185 | A job that writes long after its validation, on changed tables, still keeps every constraint if it succeeds, and merges exactly its edges |
| `AsyncSafety.InterleavingsKeepConstraints` | src/registry/upload-async.controller.ts:113-196 | In every interleaving of synchronous and asynchronous uploads all constraints hold and the ownership graph is the merge of the committed uploads in commit order |
| `AsyncSafety.CommitKeepsSoundExact` | src/registry/upload-async.controller.ts:183-185 | A commit, however late, leaves the registry sound if and only if the graph it is merged into comes out sound and all names, old and new, are safe |
| `AsyncSafety.UndisturbedIsSafe` | src/registry/upload-async.controller.ts:118-138 | Every interleaving in which each batch passes the validator's own report when it enters, and no commit falls between that and its own commit, keeps acyclic ownership and the 100% bound |
| `AsyncUpload.RunFallback` | src/registry/queue-dispatch.service.ts:64-76 | Lost claim: nothing changes. Won claim: the batch is written and the job completed with its counts, or nothing is written and the job failed |
| `AsyncUpload.Callback` | src/registry/upload-async.controller.ts:161-196 | The same outcome relation as the fallback, for unknown, taken and queued jobs |
| `AsyncUpload.UploadAsync` | src/registry/upload-async.controller.ts:113-146 | Refused uploads fail the validator's report and change nothing; accepted ones pass it and leave a queued job with the converted batch, or its finished run when publishing failed; on a sound registry exactly the unacceptable ones are refused |
| `AsyncUpload.SweepStaleJobs` | src/registry/upload-reconciliation.service.ts:36-48 | Exactly the jobs queued since before the cutoff are run, each once, each on the tables and jobs that the one before left |
| `AsyncUpload.SweepFinishesStale` | src/registry/upload-reconciliation.service.ts:36-48 | After such a sweep every stale job is final and no other job has changed |
| `AsyncUpload.FallbackIsSynchronous` | src/registry/upload-async.controller.ts:135-139 | An upload that falls back at once is a step of the synchronous run |
| `QueuedUploads.QueuedJobsCanCloseCycle` | src/registry/upload-async.controller.ts:118-138 | For any two names: a run in which two jobs, each passing the validator's report when it is created, both complete and leave two entities that own each other |
| `QueuedUploads.QueuedJobsCanOverallocate` | src/registry/upload-async.controller.ts:118-138 | For any three names: such a run that leaves an entity owned to 120% |
| `Dates.ParseIsoExact` | src/registry/validation/common.ts:25-39 | A string of ISO shape parses if and only if it names a real Gregorian date of the year 100 or later |
| `Dates.ParseUsExact` | src/registry/validation/common.ts:41-52 | The same for the month/day/year shape |
| `Dates.CheckedDateExact` | src/registry/validation/common.ts:29-38 | The read-back check accepts exactly real dates; years 0 to 99 are remapped by Date.UTC and always rejected |
| `Dates.ParseOfPrint` | src/registry/validation/common.ts:25-59 | Printing then parsing is the identity on the years 100 to 9999 |
| `Dates.PrintOfParse` | src/registry/validation/common.ts:25-59 | An accepted ISO cell prints back as its trimmed self |
| `Dates.FutureIsLater` | src/registry/validation/common.ts:61-63 | Comparing printed dates as text is comparing days |
| `SqlLike.EscapedIsLiteral` | src/registry/util/sql-like.ts:4-6 | An escaped text matches itself and nothing else, whatever pattern follows |
| `SqlLike.EscapedPatternIsSubstring` | src/registry/registry.service.ts:359 | The search pattern matches a text if and only if the text contains the term |
| `SqlLike.FilterIsHighlight` | src/registry/registry.service.ts:449-450 | The database filter and the highlighting in the application agree on every name and term |
| `SqlLike.SearchIsExact` | src/registry/registry.service.ts:351-362 | A root survives the search if and only if some entity of its subtree is highlighted |
| `Pagination.PagesPartition` | src/registry/registry.service.ts:426-430 | Pages 1 to the last, in order, are the candidate list exactly once |
| `Pagination.ServedPageExists` | src/registry/registry.service.ts:427-434 | A request is served as asked when the page exists, and the first or last page otherwise; the page is empty only if the list is |
| `Compliance.NextDueDateExact` | src/registry/compliance/compliance.util.ts:36-45 | The result is a due date of an eligible filing and no eligible filing is due earlier; none exactly when none is eligible |
| `Compliance.SeverityCountsTurns` | src/registry/compliance/compliance.util.ts:51-64 | A terminal status is never rated and a missing due date stays open; otherwise the severity is the number of days reached among 89 before, 1 after and 365 after the due date |
| `Compliance.TerminalStatusesAgree` | src/registry/compliance/compliance.util.ts:9-15 | The statuses that are never rated are those for which an upload has to give a status date |
| `Compliance.SeverityNeverDrops` | src/registry/compliance/compliance.util.ts:51-64 | For a non-terminal entity with a due date, later days and additional filings never lower the severity |
| `FilingSpellings.UsSpellingParses` | src/registry/validation/common.ts:41-52 | A date written month/day/year parses to the day its ISO form does, and is spelled differently |
| `FilingSpellings.RespelledFilingSlipsThrough` | src/registry/validation/filings-validator.ts:189-194 | Every acceptable filing row, repeated with its due date respelled, passes the filings sheet, and a statement that holds both rows cannot be executed |
| `RespelledUpload.RespelledUploadFails` | src/registry/validation/filings-validator.ts:189-194 | For every entity name, day and state of the tables: the upload of the entity with one filing in both spellings passes all sheet and business-id checks, and its write fails |
| `RespelledUpload.RespelledUploadIsLost` | src/registry/validation/validation.service.ts:53-152 | On a sound registry that upload is acceptable as a whole, and every step of it leaves the tables as they were |

## Left out

- CSV and XLSX decoding, header schema checks, worker threads, the QStash client and its signature: libraries and I/O; parsed rows and outcomes are inputs.
- SQL text, placeholders, TypeORM, indexes, migrations: the tables are maps with the declared keys.
- Interleaving of two transactions statement by statement: a commit is one atomic step.
- Error wording, how often one error is listed, and the final sorting of the error list.
- Names.NormalizeIdempotent: case folding is modelled for `A` to `Z` only; white space is the full list of ECMA-262.
- Names.NormalizeOfTrim: case folding is modelled for `A` to `Z` only; white space is the full list of ECMA-262.
- Floating-point sums of percentages: sums are exact here.
- Random UUIDs and timestamps: neither is compared by anything modelled.
- The order in which `UPDATE ... FROM VALUES` would treat a repeated key: rows are taken in order, and validated batches have none.
- Local time in `daysBetween` and the time of day of `today`: one timezone is fixed and days are compared.
- `localeCompare` sorting of the roots: pages are cut from the list as sorted.
- An analytics fetch that overlaps a commit: the cache is filled in one step.
- Crash recovery of jobs stuck in `processing`: nothing in the repository revisits them; a crash simply ends a worker in `JobProtocol`.
- Suggestions, jurisdictions, the region and compliance charts, DTOs, decorators, configuration and health checks: they would add only easy members.
- AsyncUpload.SweepStaleJobs: runs the fallbacks one after another, where the source launches them without waiting; their interleavings are the sweep steps of `JobProtocol`.
- OwnershipShares.ChildrenOfParent: leaves out the choice of a default parent and gives the bars by child id, not in list order.
- Registry.RegistryService.GetAnalyticsBase: coherence is stated for atomic fills only, as the source does not guarantee it otherwise.
