# Barkpark: models and proofs

A Dafny model of the parts of Barkpark that rewrite, select or index data under a
promise, with the promises stated over all inputs, all runs or all schedules and proved.
`dafny verify dfyconfig.toml` checks everything.

## What is modelled

**The Paper repair.** A Paper is a tree of blocks. `repair_canonical_epic` is a
compiler: it promotes table heads, splits tables, cuts long step titles, turns long lists
into notes, places one h1, completes the opening, folds the tail of a long Paper into
numbered evidence appendices, folds dense blocks, and makes ids unique.
`paper_quality.py` is an independent gate over the result. `PaperBlocks`, `Words`,
`StepRepair`, `BlockRepair`, `Appendices`, `DenseBlocks`, `BlockIds`, `SourceLeaves` and
`EpicRepair` model the compiler stage by stage, its final check of the source text
included, and `QualityGates` models the gate from its own source. `FoldShape` says which
Papers are folded or healed and what then stands where, and `OrientationLine` what the
opening supplied says, both without the functions that do it. `RepairTheorems`,
`TreeTheorems`, `OpeningTheorems` and `DensityTheorems` prove which findings the repair
rules out and, for the others, exactly when they remain, with `SourceWalk` saying which
blocks of the source are still there; `LeafTheorems` proves which Papers the final check
refuses. `FailingOpenings`, `FailingPapers` and `FailingLeaves` hold
Papers for the exceptions, over the small Papers of `SmallPapers`. Prose is a sequence of
words, because every split happens at whitespace.

**Canonicalisation of dialects.** `Json`, `InlineContent`, `TableDialects` and
`CanonicalBlocks` model `canonicalize_blocks` over JSON values, raising included, and the
list and spacer arms of `audit_blocks`; `SettledTables` and `StructureTheorems` prove what
survives a pass. `TextLedger` defines the texts of a JSON value on its own, and
`TableLedger`, `TextConservation` and `TextPlacement` prove which of them a pass keeps,
which it loses or gains, and where they then stand; `FailingTexts` holds Papers that lose
one.
A JSON-bearing string carries its decoded value, so inline decoding has a measure.

**The legacy HTML bridge.** `LegacyHtml` is the token-driven parser as a class, its
state transition as a function, and an independent meaning of well-formed streams, lists
nested to any depth included, that the parser is proved to read back.

**Chronicle.** `Calendar`, `Periods` and `ChronicleArchive` model the day, ISO week,
month and year periods, the archive that lists them by string key, and the weekly bars.
`MediaRanking` is the four-pass diversity ranking, `EvidenceSampler` the bounded
sampler, `Publisher` the edition workers as a state machine over schedules.

**Merge blocking.** `NeedsGraph` is the worklist over workflow needs, `BlockingCensus`
the guard that reads its result.

**The terminal client.** `ObjectTable` is the column-fitting table renderer, and
`TableLayout` says what its lines show.
`PaperCache` is the memoised document index with its resolvers, both as a class and as a
state machine over runs of lookups, store changes, invalidations and scope changes.

`Wrappers`, `Whitespace`, `Numerals`, `TextOrder`, `IntOrder` and `Subsequences` are shared
vocabulary.

## Where the code and its words differ

The model follows the code. These are proved, each with its exact condition where the
code has one.

- The outline gate fails after repair when the first top-level h1 carries the JSON float
  1.0: the repair compares with `==`, the gate asks for an integer. Otherwise only h1s
  inside appendices that were opened for good can make it fail
  (`RepairTheorems.OutlineGateFailsIff`).
- The appendix numbers the repair hands out have gaps exactly when a light appendix past
  the fourth stands before a longer one: the first is opened and keeps its number to
  itself (`RepairTheorems.AppendixNumberingIff`, `FailingPapers.GapFailsNumbering`). The
  same Papers are the ones a second collapse changes (`Appendices.CollapseSettlesIff`).
- The opening the repair completes can fail the opening checks of the audit. The repair
  asks only for a block of the right type among the first eight, the audit for one among
  the first eight that say something. So an h1 made from an empty title fails, and an
  ingress, byline, stats, toc, list or steps block without words fails, because it keeps
  the repair from supplying one; so does a line that comes ninth because the ingress is
  the eighth block, and what a fold hides or an opened appendix pushes down
  (`OpeningTheorems`, with a Paper for each cause in `FailingOpenings`).
- A table whose first row cannot be a header, and a step that has no title and no body to
  take one from, stay so wherever the block remains; spacers, and blocks merged into a
  step title, take theirs with them (`TreeTheorems.HeaderGateFailsIff`,
  `TreeTheorems.StepGateFailsIff`, `FailingPapers.HeaderlessTableFails`,
  `FailingPapers.UntitledStepFails`).
- The repair refuses to lose text, and still returns with a word gone: the title of a
  top-level callout that the body repeats in another case is waived
  (`FailingLeaves.EchoLosesWord`). The other shapes that lose text raise, unless the text
  happens to read elsewhere (`LeafTheorems.LeafCheckFiresIff`,
  `FailingLeaves.TitledSpacerRaises`, `FailingLeaves.StringHeadRaises`,
  `FailingLeaves.TitledStepsRaise`, `FailingLeaves.NestedEchoRaises`).
- Dense blocks are folded at the top level only, and measured by the text they show; what
  stands below a block in view, or is hidden in one, still raises the density warnings
  (`DensityTheorems.DensityIff`).
- Step repair, which promises only to move words, raises on some steps; exactly which is
  `StepRepair.RepairStepRaisesIff`.
- One step pass is not a fixpoint, two are (`StepRepair.OnePassDoesNotSettle`,
  `StepRepair.TwoPassesSettle`).
- "The first authored id is kept" fails for x, x, x-copy-2; it holds for every document
  over a set of authored ids exactly when none of them looks like a copy of another
  (`BlockIds.FirstHoldersAreKeptIff`).
- A promoted first row that is empty or not an array leaves the table headerless when
  more rows follow, and only then (`BlockRepair.PromotionLeavesHeaderlessIff`).
- The HTML bridge described as lossless conserves the text inside elements exactly when
  no text stands between the items of a list, nor before or after a nested list in an
  item (`LegacyHtml.TextIsConservedIff`, `LegacyHtml.NestedListLosesOuterText`).
- The second list-content arm of `canonicalize_blocks` never changes a block: it can only
  raise, outside any `try`, where the dialect arm before it swallowed the same error
  (`StructureTheorems.TypedItemsArmOnlyRaises`, `StructureTheorems.UnreadableItemAborts`).
  The typed-rows arm never changes a table either
  (`StructureTheorems.TypedRowsArmChangesNothing`).
- Canonicalisation is described as preserving semantics. A Paper keeps its texts, each as
  often, exactly when it gains what it loses; where no table of records is read, exactly
  when it loses none (`TextConservation.TextsSurviveIff`). Lost are the texts beside what
  an inline object is read as, those under a list's other carriers, those of spacers, and
  those of a head or header beside rows under `content`
  (`FailingTexts.HeadBesideContentIsLost`). A first row promoted by `header: true` makes
  way for the keys of the columns when no other row follows
  (`FailingTexts.PromotedRowIsLost`).
- Canonicalisation is idempotent exactly on the documents whose tables are left with
  nothing to do by one pass (`StructureTheorems.CanonicalizeSettlesIff`). Tables can need
  two when rows are objects (`StructureTheorems.TablesCanNeedTwoPasses`) or when
  `header: true` outlives the pass that fills the head
  (`SettledTables.ArrayRowsSettleIff`).
- The "+N more rows" line is not fitted to the box: every line fits exactly when there is
  room for it or no row was left out (`ObjectTable.EveryLineFitsIff`,
  `ObjectTable.RemarkCanOverflow`).
- Year keys are written without padding, so string order of a run of years is time order
  exactly when the first and last year have as many digits (`Periods.YearKeysSortIff`).
- The evidence sampler divides by zero exactly for a limit of one and more than one event
  (`EvidenceSampler.LimitOneFails`).
- Publishing ends in one store under every complete schedule exactly when any two jobs of
  one slug write the same source or both find it stored and leave it
  (`Publisher.SchedulesAgreeIff`, `Publisher.DuplicateSlugsRace`); the slugs of one build
  are distinct (`Periods.SlugNamesPeriod`).

## Model

| member | source | states |
|---|---|---|
| `Words.SplitLead` | scripts/paper_epic_repair.py:357-362 | the lead and the rest are the same words in order; the lead ends at the first sentence end, and a rest is left only after one |
| `Words.SplitCompactLead` | scripts/paper_epic_repair.py:365-408 | title and body together are the input words in order, and the title has at most 16 words |
| `Words.CutFollowsPreference` | scripts/paper_epic_repair.py:365-408 | when a boundary must be found, clause ends, then parentheses, then subordinate words are tried strictly in that order, the earliest of the preferred kind wins, and the word budget is used only when no seam qualifies |
| `Words.EmptyBodyIffNoCut` | scripts/paper_epic_repair.py:365-408 | the body is empty exactly when there are at most 16 words and no seam among them |
| `StepRepair.RepairStepKeepsWords` | scripts/paper_epic_repair.py:783-855 | a repaired step reads the same words in the same order, cut or healed, under a title of at most 16 words |
| `StepRepair.RepairStepsKeepsWords` | scripts/paper_epic_repair.py:783-855 | so does a whole list of steps, entries that are not steps included |
| `StepRepair.RepairStepRaisesIff` | scripts/paper_epic_repair.py:783-855 | the step repair raises exactly when it heals a cut title, the merged words are at most 16 without a seam, and the next child has words |
| `StepRepair.HealingCanRaise` | scripts/paper_epic_repair.py:783-855 | a concrete family of steps on which it raises |
| `StepRepair.TwoPassesSettle` | scripts/paper_epic_repair.py:783-855 | a second pass never raises and a third changes nothing |
| `StepRepair.OnePassDoesNotSettle` | scripts/paper_epic_repair.py:783-855 | a concrete step that the second pass changes again |
| `StepRepair.ContinuesTitleIff` | scripts/paper_epic_repair.py:807-816 | a first child continues the title exactly when it has words and the title leaves a parenthesis open, or its first letter is a small one, or it has none |
| `StepRepair.StepLooks` | scripts/paper_epic_repair.py:783-855 | a step not continued, under a title of at most 16 words, is left as it is; of any other at most one child joins the title, the words cut off stand in one new paragraph, and the other children follow untouched |
| `BlockRepair.PromotionLeavesHeaderlessIff` | scripts/paper_epic_repair.py:767-780 | after promotion a table still lacks a header exactly when the promoted row was not a non-empty array and more rows followed |
| `BlockRepair.RepairOneIsIdentityIff` | scripts/paper_epic_repair.py:884-921 | one block is left as it is exactly when it has no level in digits, lacks no table head, has at most 12 rows, no step that changes, no title its callout repeats and no item over 40 words |
| `BlockRepair.TitleIsDroppedIff` | scripts/paper_epic_repair.py:858-868 | a callout loses its title, and nothing else, exactly when its body opens with it, whatever the case of the letters |
| `BlockRepair.LongListBecomesNotes` | scripts/paper_epic_repair.py:714-745 | a list with an item over 40 words becomes notes item by item, each numbered from 1 with at least two digits, under a lead of at most 16 words, saying what the item said |
| `TreeTheorems.HeaderGateFailsIff` | scripts/paper_quality.py:238-323 | the missing-header gate fails on the result exactly when a table that promotion cannot head remains of the source |
| `TreeTheorems.StepGateFailsIff` | scripts/paper_quality.py:238-323 | the empty-step gate fails on the result exactly when a steps block remains of the source with a step that has no title and no body continuing one |
| `TreeTheorems.UntitledStaysIff` | scripts/paper_epic_repair.py:783-855 | a step is left untitled exactly when it had no title and its body does not continue one |
| `TreeTheorems.RepairFinds` | scripts/paper_epic_repair.py:1181-1328 | a finding decided block by block is on the result exactly when its cause is on a block of the source that remains: not a spacer, not merged into a step title, not dropped with an appendix opened for good |
| `SourceWalk.SeqFinds` | scripts/paper_epic_repair.py:884-921 | the same of the repair of single blocks, at every depth |
| `SourceWalk.TakenFinds` | scripts/paper_epic_repair.py:783-855 | of the block that joins a step title nothing remains, unless it was a table that came in parts |
| `BlockRepair.ChunksPartitionRows` | scripts/paper_epic_repair.py:748-764 | splitting keeps every row once and in order, fills every part but the last, keeps all other fields, and numbers the ids; there are ceil(n / 12) parts |
| `BlockRepair.RepairSeqIsTidy` | scripts/paper_epic_repair.py:884-921 | every block the audit would walk in a repaired sequence has no overloaded step title, no oversized table, no paragraph-sized list item and is no spacer, at every depth |
| `BlockRepair.RepairSeqKeepsWords` | scripts/paper_epic_repair.py:884-921 | the source words are a subsequence of the repaired words, unless some block has one of three named shapes that lose words |
| `BlockIds.VisitAllIsPass` | scripts/paper_epic_repair.py:558-606 | the mutation of the tree does to the ids, in walk order, what one pass over the list of ids does |
| `BlockIds.EveryIdIsNew` | scripts/paper_epic_repair.py:558-606 | the ids handed out are pairwise distinct and disjoint from those seen before, and the seen set grows by exactly them |
| `BlockIds.IdsAreDistinct` | scripts/paper_epic_repair.py:558-606 | all ids of the visited tree are pairwise distinct |
| `BlockIds.OnlyIdsChange` | scripts/paper_epic_repair.py:558-606 | only ids change, and a missing id stays missing |
| `BlockIds.UnchangedIffDistinct` | scripts/paper_epic_repair.py:558-606 | a tree is returned unchanged exactly when its ids were already distinct |
| `BlockIds.UniquifyIsIdempotent` | scripts/paper_epic_repair.py:558-606 | a second pass changes nothing |
| `BlockIds.FreshIndex` | scripts/paper_epic_repair.py:571-575 | the copy-number search ends whatever the authored ids look like, and finds the least free number from its start |
| `BlockIds.RenamePicksLeastFree` | scripts/paper_epic_repair.py:558-606 | with the `next_copy` counter a collision still gets the least free copy number from 2 up |
| `BlockIds.CounterIsOnlyACache` | scripts/paper_epic_repair.py:558-606 | dropping the counter would give the same ids |
| `BlockIds.FirstHolderKeepsId` | scripts/paper_epic_repair.py:558-606 | the first holder of an id keeps it when no authored id looks like a copy of another |
| `BlockIds.FirstHolderCanLoseId` | scripts/paper_epic_repair.py:558-606 | of x, x, x-copy-2 the authored x-copy-2 is the one renamed |
| `BlockIds.FirstHoldersAreKeptIff` | scripts/paper_epic_repair.py:558-606 | all documents over a set of authored ids keep their first holders exactly when no authored id is a copy, numbered 2 or more, of another |
| `BlockIds.AuditedIdsAreVisitedIn` | scripts/paper_epic_repair.py:558-606 | every id the audit counts is an id this walk has made distinct |
| `BlockIds.RenamingKeepsShapes` | scripts/paper_epic_repair.py:558-606 | the audit walks the same blocks before and after renaming, ids aside |
| `BlockIds.IdRegistry.Rename` | scripts/paper_epic_repair.py:568-581 | the mutable `seen` set and `next_copy` dictionary step as the specification says |
| `BlockIds.IdRegistry.Visit` | scripts/paper_epic_repair.py:564-602 | the recursive visitor returns the specified tree and leaves the specified state |
| `BlockIds.IdRegistry.VisitMany` | scripts/paper_epic_repair.py:583-605 | so does the visit of a list of blocks |
| `Appendices.CollapseConserves` | scripts/paper_epic_repair.py:1014-1144 | folded or healed: opening the generated expandables before and after gives the same blocks in order |
| `Appendices.CollapseNumbersIff` | scripts/paper_epic_repair.py:1014-1144 | the numbers at the top level run 1, 2, ... exactly when no light appendix past the fourth stood before a longer one, and are at most 4 unless the input had more appendices |
| `Appendices.FoldNumbers` | scripts/paper_epic_repair.py:1073-1144 | folding makes at most 4 appendices and numbers them 1, 2, ... without gaps |
| `Appendices.GroupIsPartition` | scripts/paper_epic_repair.py:1119-1137 | the groups hold the hidden sections in order and are at most the planned number |
| `Appendices.BuildAppendices` | scripts/paper_epic_repair.py:1121-1137 | the chunking loop builds the specified groups |
| `Appendices.HealAppendices` | scripts/paper_epic_repair.py:1014-1070 | the healing loop keeps or opens the appendices as specified; one without an array of children is kept |
| `Appendices.CollapseAppendices` | scripts/paper_epic_repair.py:1073-1144 | healing, or else folding with that loop, gives the specified document |
| `FoldShape.FoldsIff` | scripts/paper_epic_repair.py:1073-1144 | without a generated appendix a Paper comes back as it is exactly when it shows at most 5000 words, in at most 80 blocks under at most 16 headings, or has fewer than three h2; otherwise all from the third h2 on is hidden, except a last section of at most 700 words beside another hidden one, in appendices that hold ceil(n / min(4, n)) whole sections each, the last the rest |
| `FoldShape.GroupIsShared` | scripts/paper_epic_repair.py:1119-1137 | the groups hold the hidden sections in order, equally many in each but the last |
| `FoldShape.HealsLike` | scripts/paper_epic_repair.py:1014-1070 | block by block: what was not generated stays; of the generated appendices those from the fifth on that hold at most 700 words are opened, and every other is kept under the id and number of its place among them, quoting the first 14 words of its first heading |
| `Appendices.CollapseSettlesIff` | scripts/paper_epic_repair.py:1014-1144 | where no generated appendix lies directly in another, a second collapse changes nothing exactly when there was no such gap |
| `Appendices.CollapseKeepsWords` | scripts/paper_epic_repair.py:1014-1144 | folding and healing hide no word: what the source says, the summaries of generated appendices aside, is a subsequence of the result |
| `Appendices.CollapseKeepsFirst` | scripts/paper_epic_repair.py:1014-1144 | the opening block stays first |
| `DenseBlocks.NothingDenseIsLeft` | scripts/paper_epic_repair.py:935-996 | no top-level paragraph, notes item or table cell of the result exceeds its word limit |
| `DenseBlocks.DenseIsWrappedIff` | scripts/paper_epic_repair.py:935-996 | a top-level block is folded exactly when it has a notes item over 80 words, a table cell over 60 or is a paragraph that shows more than 140 |
| `DenseBlocks.ParagraphSummaryReads` | scripts/paper_epic_repair.py:957-981 | the summary of a folded paragraph quotes its first twelve words, an ellipsis on the twelfth when there are more |
| `DenseBlocks.DenseConserves` | scripts/paper_epic_repair.py:982-996 | each block is kept in place or wrapped as the only child of a new expandable |
| `DenseBlocks.DenseKeepsWords` | scripts/paper_epic_repair.py:957-996 | the source words are a subsequence of the result |
| `DenseBlocks.DenseKeepsNumbers` | scripts/paper_epic_repair.py:982-996 | the new expandables add no appendix number to the audit's walk |
| `DenseBlocks.CollapseDenseLoop` | scripts/paper_epic_repair.py:982-996 | the loop computes the specified sequence |
| `EpicRepair.MoveH1First` | scripts/paper_epic_repair.py:1234-1259 | the in-place pop and insert produce one h1 at the front and demote the later ones |
| `EpicRepair.PlacedOutline` | scripts/paper_epic_repair.py:1234-1259 | the first h1 moves to the front, the blocks before it keep their order, and exactly the later h1s become level 2; without one, a new h1 is put in front |
| `EpicRepair.InsertOpening` | scripts/paper_epic_repair.py:1274-1315 | the insertions at the running index produce the specified opening: an ingress among the first eight blocks, and something to find the way by unless the line would come ninth |
| `EpicRepair.CompletedOpening` | scripts/paper_epic_repair.py:1274-1315 | the same of the specified opening, whose line is the ninth block at the latest |
| `EpicRepair.OrientationHasThreeItems` | scripts/paper_epic_repair.py:1147-1178 | the orientation line has exactly three distinct entries |
| `OrientationLine.OrientationIsOffered` | scripts/paper_epic_repair.py:1147-1178 | the entries are the first three distinct non-empty texts of the headings that are no h1, at any depth under children and blocks in reading order, and only after all of those the stock entries not among them, in their order, up to three |
| `OrientationLine.LineOffers` | scripts/paper_epic_repair.py:1274-1315 | the line supplied offers exactly those of the Paper it is put into, behind the ingress |
| `OrientationLine.RefreshedIs` | scripts/paper_epic_repair.py:1261-1271 | of the lines generated earlier the first is brought up to date, and nothing else changes |
| `OrientationLine.HeadingSays` | scripts/paper_epic_repair.py:924-928 | the text of a plain heading is what it shows, and its `text` when it has both |
| `OrientationLine.NewH1Says` | scripts/paper_epic_repair.py:1234-1259 | a new h1 shows exactly the title |
| `OrientationLine.NewIngressSays` | scripts/paper_epic_repair.py:1274-1315 | a new ingress shows exactly the description |
| `OrientationLine.NewLineSays` | scripts/paper_epic_repair.py:1274-1315 | a new line is a byline with one item per entry and shows exactly the entries |
| `EpicRepair.RepairCanonicalEpic` | scripts/paper_epic_repair.py:1181-1328 | the mutating pipeline computes the specified repair, the three refusals included |
| `SourceLeaves.MissingIff` | scripts/paper_epic_repair.py:1215-1325 | the leaf check reports exactly the source texts that are neither a summary of a top-level appendix nor a title a top-level callout repeats, and do not read in the result |
| `LeafTheorems.LeafCheckFiresIff` | scripts/paper_epic_repair.py:1215-1328 | on every Paper the repair refuses to lose text exactly when a text at risk (on a spacer, in a head that is no array, a repeated callout title, beside what a steps block or expandable shows, on an earlier orientation line) is not waived and does not read in the result |
| `LeafTheorems.LeafCheckPasses` | scripts/paper_epic_repair.py:1215-1328 | so it never refuses a Paper whose blocks show the text they carry and keep it, without a repeated callout title below the top level and without an earlier orientation line |
| `LeafTheorems.LeafShownBySeq` | scripts/paper_epic_repair.py:884-921 | every text of the source that is not at risk, at any depth, reads without interruption in some block of the repaired sequence |
| `LeafTheorems.ShownSurvives` | scripts/paper_epic_repair.py:1234-1320 | text shown after the repair of single blocks reads without interruption in the final document |
| `FailingLeaves.TitledSpacerRaises` | scripts/paper_epic_repair.py:899-921 | a spacer with a title is dropped and the repair raises |
| `FailingLeaves.StringHeadRaises` | scripts/paper_epic_repair.py:767-780 | a table whose head is a string loses it and the repair raises |
| `FailingLeaves.TitledStepsRaise` | scripts/paper_epic_repair.py:501-555 | a steps block with a title of its own does not show it and the repair raises |
| `FailingLeaves.NestedEchoRaises` | scripts/paper_epic_repair.py:857-881 | a callout title its body repeats in another case is dropped below the top level and the repair raises |
| `FailingLeaves.EchoLosesWord` | scripts/paper_epic_repair.py:1225-1231 | at the top level that title is waived: the repair returns and the word is gone |
| `RepairTheorems.RepairEstablishesGates` | scripts/paper_epic_repair.py:1181-1328 | on every Paper whose steps sit on steps blocks the result has distinct ids and at every depth no overloaded step title, oversized table, paragraph-sized list item or spacer |
| `RepairTheorems.AppendixNumberingIff` | scripts/paper_epic_repair.py:1014-1144 | the appendices of the result are numbered 1..k exactly when the repaired sequence has no light appendix past the fourth before a longer one, for Papers with nothing numbered below the top level |
| `RepairTheorems.FewAppendicesAreNumbered` | scripts/paper_epic_repair.py:1014-1144 | so a Paper with at most 4 generated appendices passes the numbering gate, with at most 4 in the result |
| `FailingPapers.GapFailsNumbering` | scripts/paper_epic_repair.py:1014-1144 | a Paper of six appendices on which the numbering gate fails |
| `RepairTheorems.AuditRepaired` | scripts/paper_quality.py:170-323 | the audit methods, run on the repaired blocks, do not report duplicate ids, overloaded step titles, oversized tables or paragraph-sized items, and report the numbering exactly for such a gap |
| `RepairTheorems.OutlineGateFailsIff` | scripts/paper_quality.py:151-167 | the one-h1 gate fails on the result exactly when the h1 that counts, unless it is a float, and the h1s inside appendices opened for good are not one together |
| `RepairTheorems.OutlineGateFailsIffFloatH1` | scripts/paper_quality.py:151-167 | with at most 4 generated appendices it fails exactly when the first top-level h1 of the source carries the float 1.0 |
| `FailingOpenings.FloatH1FailsOutline` | scripts/paper_quality.py:151-167 | a concrete Paper on which it fails |
| `OpeningTheorems.H1CheckFailsIff` | scripts/paper_quality.py:407-413 | the missing-h1 check fails on the result exactly when the h1 has no words and no appendix opened in time brings one with words; with at most 4 generated appendices none does |
| `OpeningTheorems.IngressCheckFailsIff` | scripts/paper_quality.py:414-415 | the missing-ingress check fails on the result exactly when the Paper has an ingress in its first eight blocks and, unfolded, the first is wordless and no other fits in the places left; folded, none stays in front or at the end; healed, none surfaces before the appendices have taken the places |
| `OpeningTheorems.OrientationCheckFailsIff` | scripts/paper_quality.py:416-418 | the missing-orientation check fails on the result exactly when, unfolded, a wordless block kept the repair from supplying a line and nothing worded comes in time, or the line supplied comes ninth; folded or healed, nothing that orients stays in sight |
| `OpeningTheorems.FoldedOpening` | scripts/paper_epic_repair.py:1073-1144 | what a fold leaves among the first eight worded blocks is what stands so early in front, or at the end when front and appendices leave room |
| `OpeningTheorems.HealedOpening` | scripts/paper_epic_repair.py:1014-1070 | what healing leaves there: a kept appendix takes one place, an opened one brings what it holds |
| `OpeningTheorems.NothingOrientsIff` | scripts/paper_epic_repair.py:1274-1315 | before any fold, nothing worded orients among the first eight exactly when a wordless block held the place or the line came ninth |
| `OpeningTheorems.WordlessIngressIff` | scripts/paper_epic_repair.py:1274-1315 | likewise for an ingress of the Paper's own, the line put behind it counted |
| `FailingOpenings.EmptyTitleFailsH1` | scripts/paper_quality.py:407-413 | a Paper with an empty title and no h1 fails the first check |
| `FailingOpenings.WordlessIngressFails` | scripts/paper_quality.py:414-415 | a Paper whose ingress has no words fails the second |
| `FailingOpenings.WordlessBylineFails` | scripts/paper_quality.py:416-418 | a Paper whose byline has no words fails the third |
| `FailingOpenings.FoldedOpeningFails` | scripts/paper_quality.py:414-418 | a long Paper whose ingress stands in its third section fails the second and third |
| `FailingOpenings.OpenedAppendixFails` | scripts/paper_quality.py:416-418 | a Paper fails the third when the two paragraphs of an opened appendix push its byline to the ninth place |
| `FailingOpenings.EighthBlockIngressFails` | scripts/paper_quality.py:416-418 | a Paper whose ingress becomes the eighth block fails the third |
| `RepairTheorems.RepairLosesNoWord` | scripts/paper_epic_repair.py:1181-1328 | every word the source shows, summaries of its generated appendices aside, occurs at least as often in the result |
| `DensityTheorems.DensityIff` | scripts/paper_quality.py:170-235 | the density findings of the first reading hold of the result exactly when one is found below a top-level block left in view, or a paragraph in view counts words it does not show |
| `DensityTheorems.AuditDensity` | scripts/paper_quality.py:170-235 | the audit method, run on the repaired blocks, reports the three warnings exactly then |
| `DensityTheorems.ViewOfPlain` | scripts/paper_epic_repair.py:982-1144 | without appendices, what is left in view is what is neither dense nor closed, in front and at the end when the Paper is folded |
| `DensityTheorems.UnseenWordsAreHidden` | scripts/paper_quality.py:59-78 | such a paragraph has a steps block or expandable below it that carries text it does not show |
| `DensityTheorems.FlatPapersAreLight` | scripts/paper_quality.py:170-235 | a Paper with nothing nested in what is left in view gets none of the three |
| `DensityTheorems.CountsAgree` | scripts/paper_quality.py:59-78 | audit and repair count the same words in a tree in which nothing is hidden |
| `DensityTheorems.CountIsLeaves` | scripts/paper_quality.py:59-78 | the audit counts the words of exactly the texts the repair must keep |
| `FailingPapers.HeaderlessTableFails` | scripts/paper_quality.py:238-323 | a Paper with a table whose first row is an empty array fails the missing-header gate |
| `FailingPapers.UntitledStepFails` | scripts/paper_quality.py:238-323 | a Paper with a step that has neither title nor body fails the empty-step gate |
| `FailingPapers.NestedParagraphWarns` | scripts/paper_quality.py:186-212 | a Paper whose long paragraph stands in a callout raises the paragraph warning |
| `FailingPapers.UnseenWordsWarn` | scripts/paper_quality.py:186-212 | so does one whose paragraph holds an expandable with a title, which passes the leaf check because another paragraph shows the same words |
| `QualityGates.TallyComposition` | scripts/paper_quality.py:238-323 | the running counters agree with the declarative gates over the walked blocks |
| `QualityGates.WalkFailures` | scripts/paper_quality.py:238-323 | the tree findings are raised exactly under their declared conditions |
| `QualityGates.CompositionFailures` | scripts/paper_quality.py:238-323 | each of the eight composition failures is reported exactly when its condition holds |
| `QualityGates.TallyTree` | scripts/paper_quality.py:170-235 | the running maxima exceed their limits exactly when some block does |
| `QualityGates.TallyPrimary` | scripts/paper_quality.py:170-235 | likewise over the first-pass blocks |
| `QualityGates.DensityWarnings` | scripts/paper_quality.py:170-235 | each of the five density warnings is reported exactly when some block exceeds the limit |
| `QualityGates.OpeningFailures` | scripts/paper_quality.py:403-418 | each opening failure is reported exactly when no such block is among the first eight meaningful ones |
| `QualityGates.LeafCountsAgree` | scripts/paper_quality.py:59-78 | audit and repair count the same words in a block with nothing nested in it |
| `InlineContent.InlineIsFixpoint` | scripts/paper_structure.py:518-562 | an array that `_canonical_inline` returns is returned again unchanged, although strings are JSON-decoded on the way in |
| `InlineContent.InlineYieldsSettled` | scripts/paper_structure.py:518-562 | every node of a returned array is one the function leaves alone |
| `InlineContent.UnrecognisedIsReturned` | scripts/paper_structure.py:518-562 | what is not turned into an array is an object, given back as it was |
| `InlineContent.ListItemIsFixpoint` | scripts/paper_structure.py:573-584 | canonical list items are fixpoints |
| `InlineContent.ListItemsAreFixpoint` | scripts/paper_structure.py:573-584 | and so are lists of them |
| `TextLedger.InlineKeeps` | scripts/paper_structure.py:518-562 | what `_canonical_inline` returns has the texts of its input in their order, and exactly those beside what an object is read as are left behind |
| `TextLedger.InlineKeepsEveryTextIff` | scripts/paper_structure.py:518-562 | it has the same texts in the same order exactly when none stands beside what an object is read as |
| `TextConservation.TextsSurviveIff` | scripts/paper_structure.py:673-938 | a Paper has the same texts, each as often, exactly when it gains what it loses; without a table of records exactly when it loses none |
| `TextConservation.PaperAccounts` | scripts/paper_structure.py:673-938 | every text is in the canonical Paper as often as in the source, less what spacers, inline objects, other carriers and replaced heads lose and with what columns and records show |
| `TextConservation.BlocksStayInPlace` | scripts/paper_structure.py:673-938 | the blocks are those of the source that are no spacers, in order, each with the texts its own source accounts for |
| `TextConservation.CalloutTextIsContent` | scripts/paper_structure.py:924-932 | a callout whose text is stranded has it as its content, and nothing else changes |
| `TextConservation.StrandedIff` | scripts/paper_structure.py:924-932 | it is stranded exactly when it is not blank and content and slots are empty |
| `TextConservation.TableSteps` | scripts/paper_structure.py:690-921 | a table with array rows under its exact name, or with rows under content, goes through the table arms; any other is left alone |
| `TableLedger.TableArmsBalanced` | scripts/paper_structure.py:776-921 | under the keys the table arms write every text is as often afterwards, less those they lose and with the labels and fields of records |
| `TextPlacement.ListIsReadInPlace` | scripts/paper_structure.py:587-612 | a list dialect becomes a list with an item per entry of its carrier, each with that entry's texts in order; it is ordered exactly when it says so, is of the ordered type or its style, or for want of one its list style, names an ordered list |
| `TextPlacement.HeadComesFrom` | scripts/paper_structure.py:776-850 | a table's head is made cell by cell of its own head, or else the first row that `header: true` asks for, or else the scalars under headers, header or columns, or columns of a text each |
| `TextPlacement.TableIsReadInPlace` | scripts/paper_structure.py:776-921 | every cell of the result has the texts of the cell at its own place, in order: rows follow in order under that head or one made of a marked first row, and records show the label or key of each column and under it the field of that key |
| `TextPlacement.ContentIsReadInPlace` | scripts/paper_structure.py:615-670 | so do rows under content, below the head the content names or a marked first row |
| `FailingTexts.HeadBesideContentIsLost` | scripts/paper_structure.py:615-670 | a concrete table whose head is lost because its rows stand under content |
| `FailingTexts.PromotedRowIsLost` | scripts/paper_structure.py:786-868 | a concrete table whose promoted first row makes way for the keys of its columns |
| `StructureTheorems.SafeFindingsAreCleared` | scripts/paper_structure.py:673-938 | whenever canonicalisation returns, the audit of its output has no spacer finding and no list finding marked safe, at any depth reached by blocks and children |
| `StructureTheorems.CanonicalizeSettlesIff` | scripts/paper_structure.py:673-938 | a second pass over what a pass returned changes nothing and does not raise exactly when every table with an array of rows, at any depth reached, is left at rest by the first; rows under other carriers and failed dialects always settle |
| `SettledTables.AtRestIff` | scripts/paper_structure.py:776-921 | the arms leave a table alone exactly when its head and array rows are canonical, no row object is to be read, and no header flag, label, column list or marked first row is left to promote |
| `SettledTables.ArrayRowsSettleIff` | scripts/paper_structure.py:776-921 | one pass settles a table with array rows exactly when no `header: true` outlives the filling of its head |
| `StructureTheorems.FailedListStaysFailed` | scripts/paper_structure.py:587-612 | a list whose dialect cannot be normalised keeps everything but the blocks below it and still cannot be normalised |
| `StructureTheorems.OtherListsAreCanonical` | scripts/paper_structure.py:587-612 | every other list comes out with type list and canonical items |
| `StructureTheorems.NormalizeListIff` | scripts/paper_structure.py:587-612 | a list dialect is normalised exactly when it has a carrier all of whose items are losslessly recognisable |
| `StructureTheorems.TypedItemsArmOnlyRaises` | scripts/paper_structure.py:705-727 | after the dialect arm the second list-content arm never changes a block, and raises exactly when a list item that cannot be read comes before any entry it does not know |
| `StructureTheorems.UnreadableItemAborts` | scripts/paper_structure.py:705-727 | a concrete list that aborts the canonicalisation of any Paper it stands in |
| `StructureTheorems.TypedRowsArmChangesNothing` | scripts/paper_structure.py:735-775 | the typed-rows arm never changes a table the dialect arm has refused |
| `StructureTheorems.TablesCanNeedTwoPasses` | scripts/paper_structure.py:776-921 | a concrete document that a second canonicalisation changes again |
| `TableDialects.TableArmsFrame` | scripts/paper_structure.py:735-938 | the table arms leave every key outside their own alone |
| `CanonicalBlocks.ArmsKeepNested` | scripts/paper_structure.py:683-938 | nested arrays reach the recursion as they are in the source |
| `LegacyHtml.StreamIsRead` | scripts/paper_epic_repair.py:145-271 | every stream of closed elements, lists nested to any depth included, is read as the meanings of its elements, in order: a heading of its level, a paragraph, a quote, code, a divider or a list, with its normalised text |
| `LegacyHtml.TextIsConservedIff` | scripts/paper_epic_repair.py:145-283 | the words of the emitted blocks, in order, are the words inside the recognised elements, in order, exactly when no text stands between list items nor beside a nested list in an item |
| `LegacyHtml.AnyStreamIsSound` | scripts/paper_epic_repair.py:145-271 | on any stream, well nested or not, ids are numbered consecutively and no empty block or item is emitted |
| `LegacyHtml.NumberedIdsDiffer` | scripts/paper_epic_repair.py:166-167 | consecutive numbering makes the ids distinct |
| `LegacyHtml.NestedListLosesOuterText` | scripts/paper_epic_repair.py:207-267 | an item that holds a list of its own loses what it says before and after it |
| `LegacyHtml.LegacyHtmlBlockParser.StartTextBlock` | scripts/paper_epic_repair.py:169-181 | steps the parser's fields as specified |
| `LegacyHtml.LegacyHtmlBlockParser.FinishTextBlock` | scripts/paper_epic_repair.py:183-205 | steps the parser's fields as specified |
| `LegacyHtml.LegacyHtmlBlockParser.HandleStartTag` | scripts/paper_epic_repair.py:207-239 | steps the parser's fields as specified |
| `LegacyHtml.LegacyHtmlBlockParser.HandleEndTag` | scripts/paper_epic_repair.py:241-267 | steps the parser's fields as specified |
| `LegacyHtml.LegacyHtmlBlockParser.HandleData` | scripts/paper_epic_repair.py:269-271 | steps the parser's fields as specified |
| `LegacyHtml.LegacyHtmlToBlocks` | scripts/paper_epic_repair.py:274-283 | runs the parser over the whole stream and refuses exactly when no block was found |
| `NeedsGraph.FeedsRequired` | scripts/ci-pr-inventory.py:117-128 | the worklist ends on every graph, cycles and unknown ids included, with exactly the jobs reachable from a required job by one or more needs edges |
| `NeedsGraph.PopAndPush` | scripts/ci-pr-inventory.py:124-128 | one turn keeps the invariant and either meets something new or shortens the worklist |
| `NeedsGraph.PushUnseen` | scripts/ci-pr-inventory.py:125-128 | the inner loop records and pushes exactly the unseen needs |
| `NeedsGraph.OutsideCannotBlock` | scripts/blocking-name-census.py:14-34 | two runs that agree on the required jobs and their closure give every required job the same result, under any rule for combining results |
| `NeedsGraph.EveryClosureJobCanBlock` | scripts/blocking-name-census.py:14-34 | where red propagates, any red job of the closure reds some required job, so the set is no larger than needed |
| `BlockingCensus.MoreNamesAccountMore` | scripts/blocking-name-census.py:132-160 | naming more contexts never unnames a job and never makes one unreadable |
| `BlockingCensus.OwnNameAccounts` | scripts/blocking-name-census.py:132-160 | a job's own name always accounts for it |
| `BlockingCensus.AccountedIff` | scripts/blocking-name-census.py:132-160 | a job is accounted for exactly when its text is in the census, or it is matrixed and some context is its text with a tuple behind, or its blank template has legs that are all in the census, or a context is a rendering of its template; it is a refusal exactly when a blank template declares legs that cannot be read |
| `BlockingCensus.PreflightIff` | scripts/blocking-name-census.py:163-187 | nothing is refused beforehand exactly when there is a workflow, a required context, and for each of these a job that carries its name |
| `BlockingCensus.ReportIs` | scripts/blocking-name-census.py:188-204 | the blocking rows are the jobs that are required or reached from a required job along needs, the residue rows those of the others that are not named, each with whether it is named |
| `BlockingCensus.RenderedContextMatches` | scripts/blocking-name-census.py:156-160 | every rendering of a template matches it |
| `BlockingCensus.MatchedContextIsRendered` | scripts/blocking-name-census.py:156-160 | and every context that matches is a rendering of it |
| `BlockingCensus.CensusOf` | scripts/blocking-name-census.py:188-202 | one workflow's rows are exactly its blocking and residue jobs |
| `BlockingCensus.Census` | scripts/blocking-name-census.py:163-204 | the census refuses as specified and otherwise lists exactly the blocking and residue rows |
| `BlockingCensus.CensusVerdict` | scripts/blocking-name-census.py:207-234 | the loops give the specified verdict, which `GreenIff` describes |
| `BlockingCensus.GreenIff` | scripts/blocking-name-census.py:163-234 | green exactly when nothing is refused, all legs can be read, and every job that is required or reached from a required job is named by the census, as `AccountedIff` has it |
| `BlockingCensus.MoreExclusionsStayGreen` | scripts/blocking-name-census.py:163-234 | adding exclusion rows never turns green into red or a refusal |
| `BlockingCensus.NamingTheFindingsTurnsGreen` | scripts/blocking-name-census.py:224-229 | following the printed advice for every finding turns red into green |
| `ObjectTable.Shrink` | cmd/barkpark/objtable.go:107-119 | the trimming loop ends with the specified widths, and its give-up branch is unreachable |
| `ObjectTable.FindWidest` | cmd/barkpark/objtable.go:109-114 | the scan finds the leftmost widest column |
| `ObjectTable.FitIsFair` | cmd/barkpark/objtable.go:102-119 | the total is the smaller of natural total and budget, no column grows, and a trimmed column keeps at least 3 and stays within 1 of the widest |
| `ObjectTable.FitIsMinimax` | cmd/barkpark/objtable.go:102-119 | no assignment below the natural widths with the same total has a narrower widest column |
| `ObjectTable.FitIsLevelled` | cmd/barkpark/objtable.go:102-119 | the result is the natural widths cut at one level, give or take one cell |
| `ObjectTable.ColumnsAreUnion` | cmd/barkpark/objtable.go:35-65 | the columns are the keys of all rows, each once |
| `ObjectTable.CollectColumns` | cmd/barkpark/objtable.go:37-62 | the growing slice and set compute the specified columns |
| `ObjectTable.NaturalWidthLoop` | cmd/barkpark/objtable.go:86-101 | the nested loop computes the widest of header and shown cells, column by column |
| `ObjectTable.WidenFor` | cmd/barkpark/objtable.go:95-101 | one row widens exactly the columns it overflows |
| `ObjectTable.PadFits` | cmd/barkpark/objtable.go:121-129 | a padded cell never overflows its column, and fills it unless a wide character was cut at the edge |
| `ObjectTable.Render` | cmd/barkpark/objtable.go:29-148 | renders exactly the table-shaped arrays, as the specified lines: header, at most six rows, and the remark with the number of rows left out |
| `TableLayout.TableShows` | cmd/barkpark/objtable.go:121-148 | the first line shows the column names in capitals, each further line one of the first six rows with every value in the stretch of its own column, filled with spaces or cut to the longest beginning that fits with an ellipsis, and the last counts the rows left out; strings, numbers, true, false, null and missing keys read as stated |
| `TableLayout.ColumnsLineUp` | cmd/barkpark/objtable.go:121-148 | where letters take one cell, column i starts at the same offset in every line and holds exactly the value of column i |
| `TableLayout.NaturalIsWidest` | cmd/barkpark/objtable.go:86-101 | the natural width is that of the name or of some shown value and no less than any of them |
| `ObjectTable.WriteLines` | cmd/barkpark/objtable.go:131-147 | the writing loop produces those lines |
| `ObjectTable.LinesFit` | cmd/barkpark/objtable.go:131-147 | every header and data line fits in the box |
| `ObjectTable.EveryLineFitsIff` | cmd/barkpark/objtable.go:131-147 | every rendered line fits in the box exactly when no row was left out or the remark, 13 cells and its digits, fits |
| `ObjectTable.RemarkCanOverflow` | cmd/barkpark/objtable.go:144-146 | seven rows of one column are rendered in any box of 3 to 13 cells, and the remark overflows it |
| `PaperCache.IndexRefinesScan` | cmd/barkpark/paper_cache.go:106-143 | an id is in the index exactly when some document has it, and stands for the first titled such document, else the first |
| `PaperCache.ChipsHoldLast` | cmd/barkpark/paper_cache.go:154-168 | a chip key holds the last task document filed there |
| `PaperCache.SpellingsAgree` | cmd/barkpark/paper_cache.go:154-168 | published and drafts spellings give the same chip unless an id carries the prefix twice |
| `PaperCache.ResolversRefineScans` | cmd/barkpark/paper.go:399-489 | over any pages the cached resolvers answer as the scans do; the notice is raised only when the lookup missed and some read failed |
| `PaperCache.ScalarShows` | cmd/barkpark/paper.go:424-455 | a field shows the title or a text without the whitespace at its ends, a number as rendered, true or false by name, and nothing else |
| `PaperCache.RunIsSound` | cmd/barkpark/paper_cache.go:43-168 | over any run each type is queried at most once between invalidations and built maps equal the fold over the memoised pages |
| `PaperCache.PagesStayAsFetched` | cmd/barkpark/paper_cache.go:88-104 | a fetched page answers as it was fetched until the next invalidation, whatever the store does |
| `PaperCache.AnswersAreScans` | cmd/barkpark/paper.go:319-489 | at any point of any run every lookup answers as a scan of the pages as first fetched |
| `PaperCache.DroppedCacheIsCurrent` | cmd/barkpark/paper_cache.go:74-86 | right after an invalidation or scope change the pages are the store's |
| `PaperCache.PaperDocCache.InvalidateAll` | cmd/barkpark/paper_cache.go:75-86 | empties every field |
| `PaperCache.PaperDocCache.GetPage` | cmd/barkpark/paper_cache.go:90-104 | answers from the memo or with one query, and records it |
| `PaperCache.PaperDocCache.SweepPages` | cmd/barkpark/paper_cache.go:126-130 | queries each loaded type once and reports whether any failed |
| `PaperCache.PaperDocCache.DocIndex` | cmd/barkpark/paper_cache.go:117-143 | returns the memoised or freshly folded index and leaves the specified cache |
| `PaperCache.PaperDocCache.TaskChips` | cmd/barkpark/paper_cache.go:147-168 | returns the memoised or freshly built chips and leaves the specified cache |
| `MediaRanking.DeduplicatedKeepsBest` | scripts/chronicle-paper.py:355-366 | exactly the best-ranked item of every identity is kept, in rank order |
| `MediaRanking.DeduplicateLoop` | scripts/chronicle-paper.py:355-366 | the loop computes the deduplication |
| `MediaRanking.SiftLoop` | scripts/chronicle-paper.py:381-389 | one pass emits, defers and records as specified |
| `MediaRanking.Diversify` | scripts/chronicle-paper.py:355-390 | the loops compute the specified ranking |
| `MediaRanking.DiverseIsFairPermutation` | scripts/chronicle-paper.py:371-390 | the result is a permutation of the deduplicated ranking, and each pass keeps the ranking's order |
| `MediaRanking.EveryEventComesFirst` | scripts/chronicle-paper.py:371-390 | with D distinct events the first D entries come from D different events, which are all of them |
| `MediaRanking.FirstStretchIsFresh` | scripts/chronicle-paper.py:371-389 | the first pass shows every event and every area at most once, and an item is passed over only when an earlier item shown has its event or its area |
| `MediaRanking.ThirdPassIsEmpty` | scripts/chronicle-paper.py:375-389 | the new-area pass never emits when the area is a function of the event |
| `EvidenceSampler.IndexesNeverCollide` | scripts/chronicle-paper.py:614-625 | the half-even rounded positions are strictly increasing, in range, and include both ends |
| `EvidenceSampler.IndexesAreNearest` | scripts/chronicle-paper.py:620-623 | each position is the integer nearest to its share of the way, of two equally near the even one |
| `EvidenceSampler.SortedIndexesAreIndexes` | scripts/chronicle-paper.py:620-623 | so sorting the set of them gives the positions themselves, none lost to a collision |
| `EvidenceSampler.RoundedIndexes` | scripts/chronicle-paper.py:614-623 | the set of rounded positions, sorted, is the list of positions |
| `EvidenceSampler.AddEvenly` | scripts/chronicle-paper.py:614-625 | puts the picked candidates into the dictionary in order, or divides by zero |
| `EvidenceSampler.RepresentativeEvents` | scripts/chronicle-paper.py:608-639 | the loops compute the specified sample |
| `EvidenceSampler.SortByFacts` | scripts/chronicle-paper.py:636-639 | the stable sort orders by time, keeps every entry and keeps ties in order |
| `EvidenceSampler.PutAllFacts` | scripts/chronicle-paper.py:612-634 | the dictionary never holds one commit twice and holds only what was picked |
| `EvidenceSampler.GatheredFacts` | scripts/chronicle-paper.py:627-634 | at most 42 events are gathered, all from the period, no commit twice |
| `EvidenceSampler.SampleIsBounded` | scripts/chronicle-paper.py:608-639 | beyond the limit the sample is a time-sorted, duplicate-free part of the period of at most the limit, exactly the limit when thinning runs |
| `EvidenceSampler.BothEndsAreKept` | scripts/chronicle-paper.py:608-639 | for chronological input the sample starts with an earliest event and ends with a latest one |
| `EvidenceSampler.LimitOneFails` | scripts/chronicle-paper.py:608-639 | it fails exactly for a limit of one and more than one event |
| `EvidenceSampler.LeftOutAreasAreRarer` | scripts/chronicle-paper.py:629-631 | an area left out of the eight is no more common than any of them |
| `EvidenceSampler.CountOfIsNumber` | scripts/chronicle-paper.py:629-631 | the count of an area is the number of its events |
| `EvidenceSampler.LatestIsLast` | scripts/chronicle-paper.py:629-631 | the event picked for an area is its last in the period, and none exactly when it has none |
| `EvidenceSampler.SampleCovers` | scripts/chronicle-paper.py:627-634 | when nothing is thinned the sample holds the last eight events and the latest event of every common area |
| `Calendar.IsoWeekCountsMondays` | scripts/chronicle-paper.py:163-165 | ISO year and week count Mondays from the week that holds 4 January (ISO 8601:2004 section 2.2.10) |
| `Calendar.IsoWeekIdentifiesMonday` | scripts/chronicle-paper.py:163-165 | ISO year and week are equal exactly when the Mondays are |
| `Calendar.MonthsFillYear` | scripts/chronicle-paper.py:157-160 | the month after December begins the next year |
| `Calendar.MonthIsUnique` | scripts/chronicle-paper.py:157-160 | a day between two month starts is in that month and no other |
| `Periods.DayIsInItsPeriod` | scripts/chronicle-paper.py:163-200 | a day is inside its own period of every kind |
| `Periods.SamePeriod` | scripts/chronicle-paper.py:163-200 | every day of a period has that same period |
| `Periods.PeriodsAreEqualOrDisjoint` | scripts/chronicle-paper.py:163-200 | two periods of one kind are equal or do not overlap |
| `Periods.KeyNamesPeriod` | scripts/chronicle-paper.py:163-200 | inside a kind the string keys are equal exactly when the periods are |
| `Periods.SlugNamesPeriod` | scripts/chronicle-paper.py:163-200 | across kinds the slugs are equal exactly when the periods are, and none is the slug of the index |
| `Periods.KeyOrderIsTimeOrder` | scripts/chronicle-paper.py:244-247 | among years of one written width, string order of keys is time order |
| `Periods.YearKeysSortIff` | scripts/chronicle-paper.py:244-247 | year keys of a run of years sort in time order exactly when the first and last have the same number of digits; 999 and 1000 do not |
| `ChronicleArchive.HistoricalPeriods` | scripts/chronicle-paper.py:229-247 | the cursor loop and the sort by key compute the specified archive of each kind |
| `ChronicleArchive.FirstDay` | scripts/chronicle-paper.py:237-238 | the first archived day is the least day of an event up to the last day, or that day |
| `ChronicleArchive.ArchiveListsPeriods` | scripts/chronicle-paper.py:229-247 | the archive lists exactly the periods of the days passed, each once |
| `ChronicleArchive.EveryDayIsHeldOnce` | scripts/chronicle-paper.py:229-251 | every archived day is in exactly one archived period, its own |
| `ChronicleArchive.HistoryIsPartitioned` | scripts/chronicle-paper.py:229-255 | for each kind, every event up to the day is in exactly one archived period and the per-period counts add up to all of them |
| `ChronicleArchive.ArchiveIsContiguous` | scripts/chronicle-paper.py:229-247 | the archive of a kind is in time order without gaps from the first day to the last |
| `ChronicleArchive.DaysAreContiguous` | scripts/chronicle-paper.py:229-247 | the day archive has every day, in order |
| `ChronicleArchive.OneWidthIff` | scripts/chronicle-paper.py:244-247 | the condition for that holds for days before year 10000, and for the other kinds exactly when the first and last year have one width |
| `ChronicleArchive.WeeklyActivity` | scripts/chronicle-paper.py:1239-1257 | the loops compute a bar for every week of the period and every bucket used, in order, with its count |
| `ChronicleArchive.BarsAddUp` | scripts/chronicle-paper.py:1239-1257 | the bars always add up to the events drawn |
| `ChronicleArchive.WeeklyBarsPartitionPeriod` | scripts/chronicle-paper.py:1239-1257 | for the events of a period there is exactly one bar a week, each counts the events of its seven days, and together they count the period |
| `Publisher.IndexIsLast` | scripts/chronicle-paper.py:2315-2342 | while some edition has not succeeded, no index job has started and the stored index is the old one, whatever the schedule and the failures, repeated slugs included |
| `Publisher.SchedulesAgree` | scripts/chronicle-paper.py:2315-2342 | with distinct slugs every schedule in which all succeed leaves the store of a one-after-another run |
| `Publisher.PreservedIsUntouched` | scripts/chronicle-paper.py:2289-2312 | a preserved edition already stored keeps its source in every state, and its worker never posts |
| `Publisher.FailureLeavesOldOrNew` | scripts/chronicle-paper.py:2289-2312 | in every state each slug holds its old source or the wanted one |
| `Publisher.RepublishingWritesNothing` | scripts/chronicle-paper.py:2289-2342 | from the store a complete run left, no schedule of the same payloads ever posts |
| `Publisher.SchedulesEnd` | scripts/chronicle-paper.py:2315-2342 | a schedule has at most two steps a job, and one that is stuck has failed somewhere or done everything |
| `Publisher.SchedulesAgreeIff` | scripts/chronicle-paper.py:2315-2342 | all complete schedules leave one store exactly when any two editions of one slug have the same source or both leave a stored one alone |
| `Publisher.HarmlessAgrees` | scripts/chronicle-paper.py:2315-2342 | under that condition every complete schedule leaves the store of any other |
| `Publisher.DuplicateSlugsRace` | scripts/chronicle-paper.py:2315-2342 | two editions of one slug with different sources can end in different stores although every request succeeds |
| `Publisher.PlanCoversPayloads` | scripts/chronicle-paper.py:2322-2341 | the jobs are the payloads, each exactly as often, editions before index, and exactly the slugs outside the update set are missing-only |

## Left out

- The network, files, subprocesses, clocks and tokens: pages, events, workflows, legs and stores are parameters, and a request that fails is an input of a step.
- JSON and YAML parsing, regular expressions, Unicode: letters, case and digits are classified for ASCII, whitespace is given by the word list, and display width is a metric with the few facts used (a truncation is no wider than asked).
- Floating point: the sampler's quotients are exact rationals, which the rounded doubles agree with for any number of events a repository can hold; JSON numbers are compared only with one and two.
- The date range of Python's `datetime`: years after 9998, where building a year period raises, are ordinary years here.
- `_apply_authority_boundary`, tags, title overrides, curated months and all editorial copy: data, not logic.
- `repair_canonical_epic` with `_move_h1_first` off, and the profiles built on it: only the default is modelled.
- The leaves the check takes before canonicalisation: the model's repair starts from the blocks `canonicalize_blocks` returned, and takes them from there; a table cell or list item is one leaf.
- Block fields the repair does not look at: an absent array is an empty one but for the children of an appendix, ids are strings, and a step carries only its title and blocks; entries of a steps array that are not objects carry no words.
- Nesting of blocks other than through blocks, children, steps and child.
- The load limits of the audit, the hollow and micro-only checks and the reader evidence: editorial measures the repair only approaches.
- RepairTheorems.RepairEstablishesGates: assumes steps are carried by steps blocks, since the audit walks the steps of any block and the id repair only those.
- RepairTheorems.AppendixNumberingIff: assumes nothing numbered below the top level, since the audit walks the whole tree and the repair numbers the top level only; the lengths are those after the repair of single blocks.
- RepairTheorems.RepairLosesNoWord: excludes the shapes named by `BlockRepair.LosesNothing` (three that lose a word, as in `FailingLeaves`, and a table to be promoted that also carries items, whose words would move) and an orientation line generated earlier, which is rewritten; it counts words rather than their order, because an h1 moves.
- DensityTheorems.DensityIff: is stated on what the appendix stage leaves in view, and findings below the top level on the nested blocks as the repair of single blocks left them; a split table and a cut step title make their own.
- LeafTheorems.LeafCheckFiresIff: leaves open whether a text at risk happens to read elsewhere, which depends on every other text.
- The table, callout, duplicate-id and appendix arms of `audit_blocks`: some table findings marked safe survive canonicalisation.
- TextConservation.TextsSurviveIff: counts the texts under the keys `TextLedger.Texts` reads, so not ids, captions or other keys of an object that is unwrapped; what a table loses is counted arm by arm, on what the arms before left.
- LegacyHtml.TextIsConservedIff: covers closed elements; after a nested list an item may hold inline elements, and not text elements such as a paragraph, which the parser emits as blocks of their own.
- HTML tokenisation: the parser is modelled from its token stream on.
- Reading declared matrix legs with jq: the lines, or the failure to read them, are part of a job.
- PaperCache.PaperDocCache.DocIndex: the sweep over types and the merge of their documents are two loops instead of one nest; nil receivers are not modelled.
- Cells of more than one line in `objectTable`: width is that of a single line.
- The ranking score and its sort, the reader-area names and the identity pattern of pictures: the ranked list, areas and identities are inputs.
- The bound on concurrent publish workers: fewer workers only allow fewer schedules.
- Terminal rendering, key handling, daemons, deploy engines and site shells.
