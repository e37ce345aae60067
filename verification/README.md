# WinGRC, verified

A Dafny model of the parts of the WinGRC backend that decide what a compliance record says: the coverage
engine of one CMMC assessment, the life of evidence links, versioned lists, the scheduler, review cycles,
the document diff, bundle paths, and the writer of scope rows. `dafny verify dfyconfig.toml` checks it all.

## What is modelled

**The coverage engine** (`Rules`, `Baseline`, `EvidenceLinks`, `EvidenceTasks`, `Coverage`, `CoverageProofs`,
`CoverageTheorems`, `CoverageEffects`, `Reactivation`, `ActivationPreview`, `Engine`). One assessment: a state per objective, the
products that cover it and by which row, each product's pin to an immutable version, evidence tasks and links,
and a cached SPRS score. `Coverage` says what each operation makes of the whole state; `Engine.Assessment` is
the class whose methods run the loops and are each proved to make exactly that. `CoverageEffects` says what each
operation does to every row without naming any of the engine's rules. Over every run: coverage is
what the pinned versions claim, responsibility is what all contributors together resolve to, nothing becomes met
by itself, the stored score is the score of the states, a detached link stays detached, and a version
move agrees with starting afresh.

**Lists as evidence** (`Lists`, `ListEvidence`, `ListImport`, `ListAdoption`, `ListRuns`, `UpdateLosses`,
`ListEffects`, `AdoptionEffects`). Live list links stay on practices their list is tagged with, at a version that
is filled in, through linking, tagging, importing, taking a template update, and products leaving and returning.

**Scheduler and review cycles** (`Scheduler`, `Intervals`, `JobEffects`, `ReviewCycles`, `ReviewEffects`). Workers interleave
step by step and may crash anywhere; review cycles are swept with any pattern of failed sends.

**Algorithms** (`WordSpans`, `DocumentDiff`, `DiffCollapse`, `DiffEffects`, `BundlePaths`, `ScopeWrites`).

## What the code does not do

Where the code departs from its own documentation the model follows the code; each is a lemma below.

- A version move does not report an objective it newly covered that was already at needs_review, though
  `backend/app/engine.py:1623-1628` says it reports every one (`AlreadyWaitingIsNotTold`, `WhatAMoveTells`).
- Of two template updates in a row, the second replaces the organisation's own rows with the template's without
  an edit being named, against `backend/app/list_adoption.py:16-24` (`OwnRowsLost`, `OwnCellsLostByKey`,
  `SecondUpdateReplacesTheRows`; `KeptByEveryUpdateExactly` says when it does not).
- With reference columns, an update loses filled cells uncounted where it drops one of the copy's own columns,
  makes one a reference column, or two of the copy's rows share a key (`ReferenceUpdateLosesACell`,
  `NewReferenceColumnTakesACell`, `SharedKeyLosesACell`; `NothingLostExactly` and `UnnamedUpdateKeepsExactly` say
  exactly when).
- A job is found due before its lock is taken, so two workers can run it twice in one interval, though
  `backend/app/scheduler.py:30` says exactly once (`TwoRunsInOneInterval`, `KeepsItsIntervalExactly`).
- In a line that starts with spaces, highlighted words are off by as many characters, though
  `backend/app/document_diff.py:42-44` says offsets stay true (`IndentedLineIsMarkedWrongly`, `SpansRightExactly`).

A gap the code documents is stated too: a backfill leaves an active product not covering an objective its version
claims, until it is activated again or moved off and back onto the claim (`backend/app/engine.py:1980-1990`;
`BackfillMisses`, and `CoverageOverRuns`, which says exactly what is missed).

## Model

| member | source | states |
|---|---|---|
| Rules.ContributorAddedStatus | backend/app/assessment.py:328-364 | Never gives met or inherited to an objective that was not; a first contributor makes it pending evidence exactly from not met or pending, and keeps a judged status only if a person chose so; any further one changes nothing. |
| Rules.ComputeSprs | backend/app/assessment.py:148-172 | The score is 110 less the weights of the practices with an objective neither met nor inherited. |
| Rules.ScoreStates | backend/app/engine.py:75-101 | Grouping the states by practice and scoring the groups is scoring the states themselves: the three dictionaries lose nothing. |
| Rules.DeductingMeans | backend/app/assessment.py:148-172 | A practice deducts exactly when one of its objectives is neither met nor inherited. |
| Rules.ScoreBounds | backend/app/assessment.py:148-193 | The score lies between 110 less every weight and 110, and is 110 exactly when nothing that weighs anything is unsatisfied. |
| Rules.ScoreDrop | backend/app/assessment.py:175-193 | When nothing becomes satisfied, the points lost are the weights of the practices that start deducting and no others. |
| Rules.TotalWeightSplit | backend/app/assessment.py:148-172 | Weights add up over any part of the practices and the rest, in whatever order they are summed. |
| Engine.MagicLoopUpdates | backend/app/assessment.py:196-249 | One update for each objective a counted row claims, at pending_evidence with the responsibility of its classification alone, and none for any other. |
| Engine.Assessment.Start | backend/app/engine.py:186-247 | A new assessment is every objective seeded unmet, then one loop for each product already active. |
| Engine.Assessment.RecomputeSprs | backend/app/engine.py:110-183 | Stores the score of the states as they are and changes nothing else. |
| Engine.Assessment.JoinObjective | backend/app/engine.py:1008-1057 | Adding one contributor: new status, responsibility over all contributors, and whether a judgement was in question. |
| Engine.Assessment.ApplyUpdates | backend/app/engine.py:973-1090 | The loop joins the product to exactly the objectives its rows claim, and counts them; refused exactly when a judged objective was not asked about, or differs from what was shown. |
| Engine.Assessment.RunLoop | backend/app/engine.py:879-1108 | The whole loop: nothing at all when no claim names an objective of the catalog, else every join and the fan-out, with how many of each, or a refusal. |
| Engine.Assessment.RestoreArchivedTasks | backend/app/engine.py:613-641 | Every archived task of the version's specs is live again, an `na` one open, and no other task changes. |
| Engine.Assessment.RestoreArchivedLinks | backend/app/engine.py:643-670 | Exactly the links this product's departure archived are live again; reports the objectives they are on. |
| Engine.Assessment.RecheckRestored | backend/app/engine.py:690-726 | Of the objectives whose evidence came back, those pending evidence are at needs_review; no other changes. |
| Engine.Assessment.Activate | backend/app/engine.py:521-751 | The whole new state of an activation, first or repeated, asked or unasked, or a refusal that changes nothing. |
| Engine.Assessment.WithdrawFrom | backend/app/engine.py:1394-1456 | The product covers nothing any more; each objective it covered is at needs_review with the responsibility of who is left, or as it was if nobody is. |
| Engine.Assessment.ArchiveCoveredLinks | backend/app/engine.py:1479-1513 | Exactly the live links on what was covered, that no person attached as a list or document, are archived in this product's name. |
| Engine.Assessment.ArchiveProductTasks | backend/app/engine.py:1517-1548 | Every task of any version's specs is archived, an open one `na`, a collected one still collected. |
| Engine.Assessment.Deactivate | backend/app/engine.py:1284-1559 | The whole new state of a deactivation and its counts, or a refusal that changes nothing. |
| Engine.Assessment.MoveObjective | backend/app/engine.py:1758-1874 | One objective's part in a move: lost, gained, re-classified or left alone, and what is to be told. |
| Engine.Assessment.MoveClaims | backend/app/engine.py:1663-1874 | Visiting the objectives either version names moves every objective there is, and reports what a person is told. |
| Engine.Assessment.Move | backend/app/engine.py:1568-1962 | The whole new state of a version move and what it tells, or a refusal that changes nothing. |
| Engine.Assessment.BackfillMissing | backend/app/engine.py:1965-2089 | Every objective without a state gets one, unmet and the customer's; every state there was is as it was. |
| Engine.Assessment.PatchStatus | backend/app/routers/assessments.py:1201-1232 | A person's status on one objective, and the score with it. |
| Engine.Assessment.PreviewActivation | backend/app/engine.py:754-845 | Runs the activation, reads what it would do, and leaves the assessment exactly as it was. |
| CoverageProofs.MovedFits | backend/app/engine.py:1758-1874 | Every branch of a move keeps: contributors are active, claimed by their pinned version with the same classification, and responsibility is over all of them. |
| CoverageProofs.NextKeeps | backend/app/engine.py:521-2089 | Every operation, refused or not, keeps the invariant: who may contribute, responsibility, well-formed links, and a current score. |
| CoverageProofs.RunKeeps | backend/app/engine.py:521-2089 | So does every run. |
| CoverageTheorems.CoverageOverRuns | backend/app/engine.py:911-1047 | Over every run, an active product covers exactly what its pinned version claims, a departed one nothing, except the pairs a backfill left behind, which are named. |
| CoverageTheorems.CoverageWithoutBackfill | backend/app/engine.py:1663-1887 | In a run with no backfill, coverage is exactly what the pins claim. |
| CoverageTheorems.StartedIsGood | backend/app/engine.py:186-247 | A new assessment satisfies the invariant, misses no claim, and has nothing met. |
| CoverageTheorems.AgreesWithFreshStart | backend/app/engine.py:1568-1887 | In any state that misses no claim, starting anew over the same pins, in any order, gives the same products, classifications and responsibilities. |
| CoverageTheorems.RunsAgreeWithFreshStart | backend/app/engine.py:186-2089 | So at the end of every run of a new assessment that has missed no claim. |
| CoverageEffects.ResponsibilityOverRuns | backend/app/assessment.py:249-283 | In every state of every run, an objective something covers is shared exactly when one of the rows covering it is classified shared, and the provider's otherwise. |
| CoverageEffects.CoveredByOverRuns | backend/app/engine.py:911-1047 | In a run that missed no claim, an objective is covered by exactly the active products whose pinned version has a row for it that is neither disclaimed nor about the vendor's own platform. |
| CoverageEffects.ActivationEffect | backend/app/engine.py:521-726 | What an activation makes of each objective: from not met or pending, pending evidence if nothing covered it, needs_review where evidence came back; a judged status kept only if a person said so; who covers it and who is responsible. |
| CoverageEffects.ActivationLeaves | backend/app/engine.py:584-670 | The product is active at the adopted version; exactly the links its departure archived are live again with every field cleared; of the tasks exactly the version's archived ones are back, an `na` one open. |
| CoverageEffects.ActivationRefusals | backend/app/engine.py:562-591 | An activation is refused exactly when the product is unknown, or never adopted and unpublished or without a version, or the answers are not to exactly the judged objectives nothing covers, each as shown. |
| CoverageEffects.ActivationAsks | backend/app/engine.py:1170-1281 | Every artifact its version asks for is served by a task on every objective it is asked for on. |
| CoverageEffects.RequestsAreServed | backend/app/engine.py:1170-1281 | A fan-out leaves each artifact asked for on an objective with a task linked there, made for the spec or for the same text, trimmed and lower-cased, and kind. |
| CoverageEffects.OnlyRequestsAreLinked | backend/app/engine.py:1255-1281 | And links nothing that was not asked for. |
| CoverageEffects.NewTasksAreNeeded | backend/app/engine.py:1205-1253 | New tasks are open, each for a request no task there could serve and for an artifact no other task is for; tasks there were are untouched. |
| CoverageEffects.DeactivationEffect | backend/app/engine.py:1394-1548 | Each objective the product covered is at needs_review without it, its survivors deciding who is responsible; exactly the live links there to artifacts, not to lists or documents, are archived in its name; exactly its live tasks are archived, an open one `na`. |
| CoverageEffects.DeactivationLeaves | backend/app/engine.py:1364-1369 | The product is decommissioned, still pinned; nothing else changes. |
| CoverageEffects.DeactivationRefusals | backend/app/engine.py:1310-1360 | A deactivation is refused exactly for an unknown product, one not adopted, or a replacement that is itself or unknown. |
| CoverageEffects.MoveEffect | backend/app/engine.py:1663-1874 | What a move makes of each objective: left, joined, classified anew or as it was; nothing but that, the pin, the score and the tasks changes. |
| CoverageEffects.MoveRefusals | backend/app/engine.py:1630-1647 | A move is refused exactly when the product is not active, is on that version, or the version is not its own. |
| CoverageEffects.MoveAsks | backend/app/engine.py:1876-1940 | A move asks for the evidence of each row by which it brings the product to an objective or changes how it covers one. |
| CoverageEffects.MoveAsksNoMore | backend/app/engine.py:1876-1940 | And of no other row. |
| CoverageEffects.MoveReports | backend/app/engine.py:1758-1874 | Which objectives a person is told of, with what status before and why. |
| CoverageEffects.BackfillEffect | backend/app/engine.py:1965-2089 | A backfill adds a state, not met and the customer's, for each objective without one. |
| CoverageEffects.EditEffect | backend/app/routers/assessments.py:1201-1232 | A person's edit changes one status. |
| CoverageEffects.AttachEffect | backend/app/list_evidence.py:237-260 | Attaching makes one live link, refused exactly where the artifact is already linked and is no list or document. |
| CoverageEffects.DetachEffect | backend/app/evidence_links.py:89-129 | Detaching archives one link by a person, keeping its first date, refused exactly where there is none or it is off for good. |
| CoverageEffects.StartEffect | backend/app/engine.py:186-247 | A new assessment: each objective covered by exactly the started products that have a row for it, pending evidence if any, else not met and the customer's. |
| CoverageEffects.StartRequests | backend/app/engine.py:186-247 | And every artifact a started product asks for on an objective is served there. |
| CoverageEffects.StepsAreOperations | backend/app/engine.py:521-2089 | A step of a run is one of these operations, and a library or catalog is taken where it only grew. |
| CoverageTheorems.BackfillMisses | backend/app/engine.py:1980-1990 | A concrete state whose backfill leaves an active product not covering what it claims. |
| CoverageTheorems.NeverAutoMet | backend/app/assessment.py:328-364 | Over every run, an objective is met or inherited only because it was so at the start or a person said so. |
| CoverageTheorems.NextNeverRaises | backend/app/engine.py:110-183 | No operation but a person's edit ever raises the score. |
| CoverageTheorems.ScoreOverRuns | backend/app/engine.py:110-183 | Over every run the stored score is the score of the states, within its bounds, and no higher than at the start unless a person edited. |
| ActivationPreview.PreviewIsExact | backend/app/engine.py:754-845 | Confirming what was shown is never refused, costs exactly the weights of the practices named, and leaves each objective at the status shown. |
| ActivationPreview.ConfirmedOnlyAsShown | backend/app/engine.py:1045-1086 | In a later state the confirmation is accepted exactly when that state still asks the same questions about the same statuses. |
| ActivationPreview.UnaskedIsExact | backend/app/engine.py:754-845 | When nothing is in question the preview promises no loss, and there is none. |
| ActivationPreview.PreviewShows | backend/app/engine.py:754-845 | The screen shows exactly the judged objectives nothing covers, each with its status, default answer, answer, resulting status and whether its practice already deducts. |
| ActivationPreview.PreviewRefusals | backend/app/engine.py:754-845 | A preview is refused as the activation is, and for an answer that is neither keep nor needs_review. |
| ActivationPreview.WhatAMoveTells | backend/app/engine.py:1623-1628 | Exactly which objectives a move reports: those it wrote and left at needs_review, save one newly covered that was there already. |
| ActivationPreview.AlreadyWaitingIsNotTold | backend/app/engine.py:1802-1846 | A concrete objective a move leaves at needs_review and does not report. |
| EvidenceLinks.ArchivedIsWellFormed | backend/app/evidence_links.py:58-75 | An archive keeps the first date and gives the cause and product named; the row is well formed exactly unless a detached link is archived again for another cause. |
| EvidenceLinks.TakenOffKeepsTheDate | backend/app/evidence_links.py:89-129 | Taking off a link, live or archived by a product, keeps the date it first stopped counting, clears the product and leaves the row well formed. |
| EvidenceLinks.EvidenceStateLink.Archive | backend/app/evidence_links.py:58-75 | The fields after an archive, or a refusal and no change. |
| EvidenceLinks.EvidenceStateLink.Restore | backend/app/evidence_links.py:78-86 | A restored link is live, with no cause, product, date or person left on it. |
| EvidenceLinks.EvidenceStateLink.Detach | backend/app/evidence_links.py:89-129 | The fields after a detach, or a refusal and no change. |
| Reactivation.LeaveAndReturn | backend/app/engine.py:1394-1548 | Leaving and returning restores every link, contributor and responsibility; what was covered is at needs_review and nothing else changes; collected tasks stay collected, the other tasks of the pinned version come back open, and those of another version stay archived. |
| Reactivation.DetachedStays | backend/app/engine.py:643-670 | An archived link that names no product is never changed again by any run, unless that artifact is attached there again. |
| Reactivation.DetachIsFinal | backend/app/evidence_links.py:89-129 | So what a person detached, even after a departure had archived it, stays archived with its first date. |
| EvidenceTasks.FanOutTasks | backend/app/engine.py:1170-1281 | The loops with their dictionaries give the fan-out, and count the tasks they made. |
| EvidenceTasks.FanOutEffect | backend/app/engine.py:1170-1281 | Old tasks are untouched, new ones are one for each artifact nothing served, and each spec's task is linked to all its row claims that has a state, and to nothing else. |
| EvidenceTasks.FanOutIdempotent | backend/app/engine.py:1170-1281 | A second fan-out over the same rows makes no task and no link. |
| EvidenceTasks.FanOutIsMinimal | backend/app/engine.py:1170-1281 | New tasks are for distinct artifacts, none of which any task there was already had. |
| Text.TrimMeans | backend/app/engine.py:1213-1216 | Trimming takes white space off both ends and nothing else. |
| Text.LowerMeans | backend/app/engine.py:1213-1216 | Lower-casing changes the capitals of ASCII and nothing else. |
| EvidenceTasks.TaskRoundTrip | backend/app/engine.py:1517-1548 | What leaving and returning makes of a task: collected stays collected, open comes back open, and an `na` task comes back open. |
| Lists.PopulatedMeans | backend/app/list_library.py:121-180 | Filled in means every row has something other than white space and examples outside the reference columns, and no cell anywhere has a bracketed token of capitals. |
| Lists.VersionsStayNumbered | backend/app/list_library.py:240-265 | Versions are numbered 1 to n and writing one changes no older one. |
| ListEvidence.NextKeeps | backend/app/list_library.py:306-408 | Every step keeps all of that together. |
| ListEvidence.ListChangeKeeps | backend/app/list_library.py:306-344 | Any change to a list that only adds versions and takes no tag that evidence rests on keeps it. |
| ListEvidence.OnlyAPersonEndsAListLink | backend/app/list_evidence.py:300-348 | Of the steps of the evidence store, the last live link of a list on an objective is ended only by its unlinking or a detach, never by a product or a new version. |
| ListRuns.ConfinedOverRuns | backend/app/list_evidence.py:191-348 | From an empty store, over every run of linking, tagging, saving, importing, copying templates, taking updates, and products leaving and returning: each live list link is on a practice its list is tagged with, at a filled-in version; one per list and objective; none naming a product. |
| ListRuns.AfterKeeps | backend/app/list_library.py:747-791 | Every such step, refused or not, keeps the invariant. |
| ListRuns.VersionsAreForever | backend/app/list_library.py:240-265 | Over those runs no list version is lost or changed once written. |
| ListRuns.LastLinkEndsByAPerson | backend/app/list_evidence.py:300-348 | No import, copy or update ends a list link. |
| ListRuns.OnlyAPersonEndsAListLinkOverRuns | backend/app/list_evidence.py:300-348 | Over those runs, what was linked and is no longer was unlinked or detached by a person on the way. |
| ListEvidence.ListStore.LinkCurrent | backend/app/list_evidence.py:278-297 | Links the current version, or refuses: not tagged, not offered, linked already, or to be moved forward. |
| ListEvidence.ListStore.MoveLinkForward | backend/app/list_evidence.py:300-326 | Archives the link there is and makes the current version's live, or refuses. |
| ListEvidence.ListStore.UnlinkList | backend/app/list_evidence.py:329-348 | Archives the live link, or refuses when there is none. |
| ListEvidence.ListStore.MakeLive | backend/app/list_evidence.py:215-251 | Uses the one artifact of that version if there is one, and its one row on the objective. |
| ListEvidence.ListStore.FindArtifact | backend/app/list_evidence.py:215-234 | Finds the artifact naming a list version exactly when there is one. |
| ListEvidence.ListStore.RemoveTag | backend/app/list_library.py:390-407 | Removes the tag, or refuses while live evidence rests on it. |
| ListEvidence.ListStore.CreateVersion | backend/app/list_library.py:240-265 | Numbers the new version one above the highest there is. |
| ListImport.RetaggedIsSettled | backend/app/list_library.py:410-426 | Re-tagging keeps every tag somebody else put there and leaves nothing further to add or remove. |
| ListImport.ApplyImport | backend/app/list_library.py:719-792 | Writes exactly what the plan and the named edits call for, or refuses before writing anything. |
| ListImport.ImportIsIdempotent | backend/app/list_library.py:577-604 | Reading the same source after applying it proposes no list and no version; edits not named are still conflicts. |
| ListRuns.ReimportProposesNothing | backend/app/list_library.py:577-604 | So for an import applied at the end of any run from an empty store. |
| ListImport.ImportRespectsPeople | backend/app/list_library.py:719-792 | An unnamed edit is left exactly as it was, other people's tags stay, and versions are only added. |
| ListImport.ImportKeepsConfinement | backend/app/list_library.py:747-791 | An accepted import keeps the list invariant. |
| ListImport.ApplyDoesEach | backend/app/list_library.py:770-792 | Each list becomes what its own sheet makes of it, whatever the other sheets do. |
| ListEffects.ImportEffect | backend/app/list_library.py:577-604 | After an import each list it names says what its sheet says, by one further version if it did not already, with the import's tags following the sheet; save one whose current content is a person's, differs and was not named, which is exactly as it was. |
| ListEffects.ImportLeaves | backend/app/list_library.py:756-791 | Lists it does not name, links and artifacts are as they were. |
| ListEffects.ImportRefusals | backend/app/list_library.py:735-755 | An import is refused exactly for a name that is no edit it would replace, or evidence resting on a tag it would take. |
| ListEffects.LinkEffect | backend/app/list_evidence.py:278-299 | Linking makes one live link at the current version, of the one artifact for it, or is refused exactly as listed. |
| ListEffects.MoveForwardEffect | backend/app/list_evidence.py:300-328 | The old link ends as moved forward and the current version's is live, or exactly these refusals. |
| ListEffects.UnlinkEffect | backend/app/list_evidence.py:329-348 | The list's live link on the objective ends as detached by that person, or exactly these refusals. |
| ListEffects.DetachLinkEffect | backend/app/evidence_links.py:89-129 | A person detaches one link of the store, or is refused where there is none or it is off for good. |
| ListEffects.ProductStepsEffect | backend/app/engine.py:1479-1513 | A departure takes live links to artifacts alone, in its product's name; the return brings back exactly those. |
| ListEffects.RemoveTagEffect | backend/app/list_library.py:390-408 | A tag is removed unless live evidence rests on it. |
| ListEffects.AddTagEffect | backend/app/list_library.py:374-389 | A tag there is left as it was, whoever put it there. |
| ListEffects.SaveEffect | backend/app/list_library.py:240-265 | Saving adds one version, numbered next. |
| ListEffects.CreateEffect | backend/app/list_library.py:445-483 | A list built by hand holds its content at version 1 and its tags as the person's. |
| ListAdoption.EditKeepsReference | backend/app/list_library.py:78-100 | An edit that is allowed keeps the template's columns, rows in order and reference cells. |
| ListAdoption.Adopt | backend/app/list_adoption.py:126-157 | A copy under its own key, or a refusal and no change. |
| ListAdoption.CopyingKeepsConfinement | backend/app/list_adoption.py:126-157 | A new copy carries the template's reference text and exactly its tags, and the list invariant holds. |
| ListAdoption.ReferenceTextOverRuns | backend/app/list_adoption.py:190-308 | After any guarded edits and updates a copy carries the reference text of the template version it is based on. |
| ListAdoption.PlanCarriesReference | backend/app/list_adoption.py:190-246 | Whatever a copy held, taking a template leaves it with that template's reference text. |
| ListAdoption.IndexRows | backend/app/list_adoption.py:232 | The dictionary of rows by key holds each key's last row. |
| ListAdoption.CountDropped | backend/app/list_adoption.py:241-245 | The count over rows and columns is the number of distinct filled own cells whose key the template dropped. |
| ListAdoption.ReferenceRows | backend/app/list_adoption.py:222-246 | The dictionary, the loop over the template's rows and the count together give the carried rows and the number of cells left behind. |
| ListAdoption.OwnCellsFollowTheirKey | backend/app/list_adoption.py:228-240 | A cell outside the template's reference columns survives, by key, wherever the template now has its row, if its column is still there and no later row of the copy has the key and another cell. |
| ListAdoption.NothingLostExactly | backend/app/list_adoption.py:222-246 | Of rows carried over by key (edited since the last update), no filled cell is lost, but revised reference text, exactly when none is counted as dropped and each has its column, its key, and either the template's row already says the same (a column made a reference column) or no later row of the key says otherwise. |
| ListAdoption.FilledCellsAreConserved | backend/app/list_adoption.py:201-206 | Without reference columns, filled cells before are filled cells after plus those counted as dropped, each kept in its row and value. |
| UpdateLosses.UnnamedUpdateLosesNothing | backend/app/list_adoption.py:190-217 | An update naming no edit keeps what a person defined and, without reference columns, every filled cell of rows edited since the last update. |
| UpdateLosses.UnnamedUpdateKeepsExactly | backend/app/list_adoption.py:190-217 | For any template: where rows were edited since the last update, an update naming no edit keeps what a person entered exactly when the template has no reference columns or each cell entered can be found in its rows: column and key kept, a column made a reference column saying the same already, no later row of the key saying otherwise. Where they were not edited, it takes the template as it is. |
| UpdateLosses.KeptByEveryUpdateExactly | backend/app/list_adoption.py:190-217 | For any template: what a person entered is safe from every later version in whose rows it can be found exactly when the copy was edited since the last update or that update left only the template's own cells. |
| UpdateLosses.KeptOverRunsExactly | backend/app/list_adoption.py:190-308 | So for every copy, after any guarded edits and updates. |
| UpdateLosses.OwnRowsLost | backend/app/list_adoption.py:196-197 | A concrete copy whose own rows the next update replaces unasked. |
| UpdateLosses.OwnCellsLostByKey | backend/app/list_adoption.py:196-197 | The same for a template with reference columns. |
| UpdateLosses.ReferenceUpdateLosesACell | backend/app/list_adoption.py:236-245 | A concrete update, of edited rows, that loses a filled cell of a dropped own column and asks for no edit to be named. |
| UpdateLosses.NewReferenceColumnTakesACell | backend/app/list_adoption.py:234-245 | A concrete update whose template makes a column worked in a reference column: the cell entered there goes, uncounted and with no edit named. |
| UpdateLosses.SharedKeyLosesACell | backend/app/list_adoption.py:231-241 | A concrete update in which the earlier of two rows with one key loses its cell the same way. |
| UpdateLosses.SecondUpdateReplacesTheRows | backend/app/list_adoption.py:160-197 | One update directly after another always takes the template's rows, with nothing counted and no edit named. |
| ListAdoption.OverwritesOnlyWhatIsNamed | backend/app/list_adoption.py:249-279 | An accepted update replaces an edit exactly when that edit, list and version, was named; with none named no definition was changed and nothing counted; the version replaced is still the one of its number, with all it held. |
| ListAdoption.UpdateKeepsConfinement | backend/app/list_adoption.py:280-307 | An update keeps the list invariant and every older version, and the copy is then based on the version taken. |
| ListAdoption.TakeUpdate | backend/app/list_adoption.py:249-308 | Writes exactly the planned version and tags, or refuses, in the order of its checks, and writes nothing. |
| AdoptionEffects.EditAllowedExactly | backend/app/list_library.py:78-100 | With reference columns an edit may be saved exactly when columns, rows in order and reference cells are as they were. |
| AdoptionEffects.UpdateWrites | backend/app/list_adoption.py:190-246 | Cell by cell what an update writes: the template's rows where the copy's were not edited, else the copy's cells by column name, or by the key of their row. |
| AdoptionEffects.MustBeNamedExactly | backend/app/list_adoption.py:186-218 | An edit must be named exactly when a definition field was changed, or something entered has no column, or no row of its key, left. |
| AdoptionEffects.TakeEffect | backend/app/list_adoption.py:249-308 | Taking a version writes that as one version more, with the template's tags following, or is refused exactly as listed, in order. |
| AdoptionEffects.CopyEffect | backend/app/list_adoption.py:125-156 | A copy starts as the template's content at version 1 with its tags. |
| Scheduler.SafeOverRuns | backend/app/scheduler.py:862-944 | Whatever workers do, interleaved and crashing, holders hold their lock, no lock leaks, each running worker's row is its own, and a job has one running row at most. |
| Scheduler.NoDoubleRuns | backend/app/scheduler.py:881-944 | In any such state one worker at most is between a job's lock and its release, and a running row is that worker's. |
| Scheduler.ReconcilesOnlyTheDead | backend/app/scheduler.py:862-878 | Orphan reconciliation never ends a run a worker is still at. |
| Scheduler.RowsOnlyEnd | backend/app/scheduler.py:881-944 | A row changes once: from running, by its own worker or as an orphan, in its ending only. |
| Scheduler.EndedForever | backend/app/scheduler.py:862-944 | Over every run, a row that has ended never changes, though the update that ends one checks no status. |
| Scheduler.CrashHoldsNothingUp | backend/app/scheduler.py:58-70 | After a crash the next worker to find the job due runs it to its end and leaves no row of it running. |
| Scheduler.TwoRunsInOneInterval | backend/app/scheduler.py:947-970 | Two workers, each finding a job due, run it twice within its interval. |
| Intervals.HeldUndisturbed | backend/app/scheduler.py:881-944 | While a worker holds a job's lock nobody else adds or ends a run of that job. |
| Intervals.KeepsItsIntervalExactly | backend/app/scheduler.py:854-970 | From a worker's check to the run it adds, others interleaved: the run keeps its interval from the job's previous one exactly unless another worker added or ended a run of the job, too late, between the check and the lock. |
| Scheduler.PassTwiceIsOnce | backend/app/scheduler.py:947-970 | A second pass over the registry at once runs nothing. |
| Scheduler.JobTable.ReconcileOrphan | backend/app/scheduler.py:862-878 | No row of the job is left running, and no other row changes. |
| Scheduler.JobTable.RunOne | backend/app/scheduler.py:881-944 | Undisturbed: one row added and ended, orphans ended, the lock free again; or skipped. |
| Scheduler.JobTable.RunDueJobs | backend/app/scheduler.py:947-970 | Each registered job in turn, one outcome each. |
| JobEffects.DueExactly | backend/app/scheduler.py:854-860 | A job is due exactly when it never ran, or its interval has passed since its latest run ended, or began if it has not ended. |
| JobEffects.CheckFindsDue | backend/app/scheduler.py:947-970 | So an idle worker goes on to its lock in exactly those cases. |
| JobEffects.RunningElsewhereIsSkipped | backend/app/scheduler.py:893-897 | A worker that finds the lock held lets the job be. |
| JobEffects.FailureLetsGo | backend/app/scheduler.py:936-944 | A failure outside the job's body changes no row and frees the lock. |
| JobEffects.JobEffect | backend/app/scheduler.py:881-944 | One job of a pass: not due, skipped, or its orphans failed and one row added, ended as the body did. |
| JobEffects.PassIsInTurn | backend/app/scheduler.py:947-970 | A pass takes the jobs in turn, each finding the table as those before left it. |
| ReviewCycles.ReviewsOverRuns | backend/app/review_cycles.py:131-250 | Over every run: one open cycle per organisation, rows that fit their cycle's status, reminders in order, and one record for each closed cycle, attached only if it was completed. |
| ReviewCycles.WhatAClosedCycleSays | backend/app/review_cycles.py:385-499 | Completed means all attested; no response means told and not attested, not notified means never told; undeliverable means nobody was told. |
| ReviewCycles.FrozenOnceClosed | backend/app/review_cycles.py:179-250 | Once closed, neither the cycle nor any reviewer's row changes, though viewing checks no status; records stay. |
| ReviewCycles.RowsGoOn | backend/app/review_cycles.py:582-614 | Over every run a reviewer is first reached once, reminders are only added, and an attestation stands. |
| ReviewCycles.CatchUpHolds | backend/app/scheduler.py:463-482 | The catch-up ends; what it adds is the next reminders in order, none before its day, and all that are due if nothing fails. |
| ReviewCycles.SweepRemindsExactly | backend/app/scheduler.py:441-482 | After a sweep without a failure, whoever has not attested has been reached, and sent exactly the reminders due. |
| ReviewCycles.RemindersInOrder | backend/app/review_cycles.py:617-641 | In any reachable state, whatever failed, reminders are 1 to k once each, for k no more than the thresholds passed since first reached. |
| ReviewCycles.ReviewBoard.OpenCycle | backend/app/review_cycles.py:131-175 | A cycle for everybody asked, told or not, or a refusal while one is open. |
| ReviewCycles.ReviewBoard.RecordView | backend/app/review_cycles.py:179-198 | The first view is recorded; any other changes nothing. |
| ReviewCycles.ReviewBoard.AttestCycle | backend/app/review_cycles.py:201-250 | One attestation, closing the cycle if it was the last, or one of four refusals and no change. |
| ReviewCycles.ReviewBoard.CloseCycle | backend/app/review_cycles.py:385-499 | Who was left waiting is written down, the status told apart, and the record written. |
| ReviewCycles.ReviewBoard.CatchUp | backend/app/scheduler.py:463-482 | The loop of one reviewer's reminders, to its end. |
| ReviewCycles.ReviewBoard.SweepAll | backend/app/scheduler.py:413-484 | One sweep of every open cycle: closed when due, else everybody told or reminded. |
| ReviewEffects.OpenEffect | backend/app/review_cycles.py:131-175 | Opening adds one cycle due in 21 days with a row for everybody asked, told, in vain or not, or is refused while one is open. |
| ReviewEffects.ViewEffect | backend/app/review_cycles.py:179-198 | A first view of somebody asked is recorded; anything else changes nothing. |
| ReviewEffects.AttestEffect | backend/app/review_cycles.py:201-250 | One row attested, the last one completing the cycle with its record attached, or exactly these refusals. |
| ReviewEffects.SweepEffect | backend/app/scheduler.py:413-484 | A sweep closes exactly the open cycles past their time, telling silent from never told, and in the others sends the request to whoever was never reached and to the rest the reminders due at 7 and 14 days, in order, as far as they get through. |
| ReviewEffects.SweepRecords | backend/app/review_cycles.py:385-499 | It adds a record for each cycle closed, attached to nothing. |
| WordSpans.TokenOffsets | backend/app/document_diff.py:119-125 | Each offset is the length of everything before its token. |
| WordSpans.Tokens | backend/app/document_diff.py:41-45 | Tokens joined are the line from its first word on, and each starts with one. |
| WordSpans.FindSpans | backend/app/document_diff.py:138-155 | The loop over a matcher's opcodes gives each side's spans. |
| WordSpans.SpansLieInTheirLine | backend/app/document_diff.py:128-155 | For any two lines and any matcher, spans are in order, apart, never empty and inside the line. |
| WordSpans.SpanMarksItsWords | backend/app/document_diff.py:128-135 | Counted from the line's first word, a span covers its changed words and the spaces between, not those after. |
| WordSpans.SpansRightExactly | backend/app/document_diff.py:128-135 | So it is right in the line itself exactly when the line starts with a word. |
| WordSpans.IndentedLineIsMarkedWrongly | backend/app/document_diff.py:41-45 | A concrete indented line whose span marks a space for a word. |
| WordSpans.OutsideSpansAgree | backend/app/document_diff.py:138-155 | The words outside the changed stretches are the same on both sides. |
| DocumentDiff.RowsRebuildBodies | backend/app/document_diff.py:218-280 | The rows read down either side are that body, numbered from 1, each line once, in order. |
| DocumentDiff.CountsMeasureBodies | backend/app/document_diff.py:218-280 | Unchanged, changed and removed rows number the old body's lines; unchanged, changed and added the new one's. |
| DocumentDiff.MakeRow | backend/app/document_diff.py:222-280 | The row of each kind of opcode, with the spans of a changed line. |
| DocumentDiff.RowBuilder.AppendAll | backend/app/document_diff.py:218-280 | The loops build all the rows, and the three counters count them. |
| DiffCollapse.Collapse | backend/app/document_diff.py:158-189 | The two-index loop collapses run by run. |
| DiffCollapse.CollapseShowsWhatIsNear | backend/app/document_diff.py:158-189 | What is shown is exactly every change and every row within context of one, and lone rows between; each longer stretch is one marker with its length. |
| DiffCollapse.CollapseLosesNothing | backend/app/document_diff.py:158-189 | Expanding the markers from the bodies gives back every row. |
| DiffCollapse.DiffCarriesBothBodies | backend/app/document_diff.py:192-289 | For any bodies, matcher and context, the collapsed rows with the bodies at hand read as the old body and as the new one. |
| DiffCollapse.DiffShowsEveryChange | backend/app/document_diff.py:192-289 | For any bodies and matcher, what a diff shows is every change with the rows near it. |
| DiffCollapse.DiffBodies | backend/app/document_diff.py:192-289 | The collapsed rows and the counts, for a first version, an unchanged one, or any other. |
| DiffEffects.TokensAreWords | backend/app/document_diff.py:41-45 | Each token is a word and the white space after it. |
| DiffEffects.LineSpansMark | backend/app/document_diff.py:138-155 | Each changed stretch that has words is marked, from the first character of its first word to the last of its last. |
| DiffEffects.OnlyChangesAreMarked | backend/app/document_diff.py:138-155 | And nothing else is. |
| DiffEffects.RowsSay | backend/app/document_diff.py:218-280 | Every row is what an opcode says of its lines: unchanged only of lines that are the same, replaced with their marks, gone or come. |
| DiffEffects.NothingChanged | backend/app/document_diff.py:205-216 | Bodies that are the same have nothing but unchanged rows. |
| DiffEffects.NegativeContextShowsAll | backend/app/document_diff.py:165-167 | With a negative context nothing is put away. |
| BundlePaths.PathsDiffer | backend/app/bundle_service.py:621-649 | Over any placements, no two files get one path. |
| BundlePaths.PathsDifferIgnoringCase | backend/app/bundle_service.py:621-649 | Not even ignoring case, if the folders are told apart that way. |
| BundlePaths.FoldersTellObjectives | backend/app/bundle_service.py:607-618 | A folder gives back the family, practice and objective it is for, and is never the folder of what is linked to none. |
| BundlePaths.BundlePathsDiffer | backend/app/bundle_service.py:607-649 | So the files of a bundle have different paths even ignoring case, if no two objectives of the catalog are one ignoring case. |
| BundlePaths.BundlePlacesFiles | backend/app/bundle_service.py:621-649 | Each file is put in its objective's folder, or that of what is linked to none, under its slug, or the start of its id where there is none, with its number from the second on, its extension and its content. |
| BundlePaths.NamesTellFiles | backend/app/bundle_service.py:642-649 | A file name gives back its slug, its number and its extension. |
| BundlePaths.SafeSlug | backend/app/bundle_service.py:573-574 | Only lower-case letters, digits and underscores, forty at most. |
| BundlePaths.SlugKeepsTheName | backend/app/bundle_service.py:573-574 | A slug keeps the name's letters and digits, lower-cased and in order, all of them unless cut, with single underscores between. |
| BundlePaths.SlugOfASlug | backend/app/bundle_service.py:573-574 | A name that is a slug is its own slug. |
| BundlePaths.ExtensionsTellKinds | backend/app/bundle_service.py:554-570 | The kinds of file listed have extensions that tell them apart; any other has none. |
| BundlePaths.DecimalTellsNumbers | backend/app/bundle_service.py:648-648 | No two numbers are written alike. |
| BundlePaths.DecimalReads | backend/app/bundle_service.py:648-648 | A number written out reads as that number, with no zero before it. |
| BundlePaths.Bundle.AssignPath | backend/app/bundle_service.py:621-649 | The path by how many of that name the folder had, and one more counted. |
| BundlePaths.Bundle.Place | backend/app/bundle_service.py:1104-1112 | Adds one file at a new path: there are as many files as placements, and every earlier one is still there. |
| BundlePaths.Bundle.PlaceAll | backend/app/bundle_service.py:1228-1252 | So do both placement loops. |
| ScopeWrites.ScopeTable.Upsert | backend/app/repo.py:79-180 | The row after a write by a person, an import or a sync, or a refusal and no change. |
| ScopeWrites.UpsertStores | backend/app/repo.py:118-180 | What any write stores, attribute by attribute: what a connector observed, else what the write carries, else what another source or a person alone knows, else nothing; category, status, boundary and source; a person's edit as sent; refused exactly for a pending status. |
| ScopeWrites.DecisionsStandOverRuns | backend/app/repo.py:86-110 | Over any imports and syncs: the boundary is unchanged, a decommissioned row stays so, a category is never cleared. |
| ScopeWrites.OverlayStandsOverRuns | backend/app/domain.py:230-243 | What a person alone knows changes only by a write, not a sync, that itself carries it. |
| ScopeWrites.ObservationsStandOverRuns | backend/app/domain.py:214-227 | What a connector observed, and its name on the row, survive any writes that are not a connector's. |
| ScopeWrites.PendingNeverStored | backend/app/repo.py:118-131 | No write stores a pending status; a write is refused exactly when it carries one. |

## Left out

- SQL, sessions, row locks, savepoints, row-level security and flush order: each operation but the scheduler's is one step on one state.
- Audit rows, history reasons, e-mail text, storage, hashing, and all rendering (HTML, PDF, XLSX, ZIP) and Markdown parsing.
- A second assessment: pins belong to the organisation, but deactivation and moves touch only the assessment they are given, so the coverage results are about one.
- ORM rows are values in the maps and sequences of `Assessment`, `ListStore`, `JobTable`, `ReviewBoard` and `ScopeTable`; two references to one row in a session are not modelled.
- The kinds of exception an activation's answers can raise are one refusal, and the counts of controls gained, lost and changed a move returns are not reported.
- A baseline version has one row for each practice and each row names an objective once, as the database's constraints and the import of baselines hold it.
- The order of tasks and rows is the order in the sequence, where the code leaves some of it to the database.
- Document links (`backend/app/document_evidence.py`) and the command that writes the ODP template (`backend/app/odp_template.py`).
- Which template a copy is of, and the refusal of a second copy of one template (`backend/app/list_adoption.py:135-137`).
- The keys of the reference catalog are taken to hold no slash.
- Why an import wrote a version (`import_cause`, `version_causes`), merge rules and import reports.
- A list's current version is the one written last; lists and objectives are known by their natural keys.
- Lower-casing, trimming and whitespace are those of ASCII.
- Splitting a body into lines: the diff takes lines. Of the sequence matcher only that its opcodes tile both sequences is assumed.
- The moments inside one sweep are one moment, the sweep's own; organisations due for a cycle, flags, cycle items and the record's text are not part of this model.
- A worker's lock is lost only when the worker is; a lock connection dropped while its worker goes on is not modelled.
- ListAdoption.ReferenceTextOverRuns: asks for distinct column names, which the code checks when a list is made by hand but not when one is edited.
- ListRuns.ConfinedOverRuns: a step that takes an update does nothing to a list some version of which has a row without a cell per column, or a column twice; an import does nothing if two of its sheets have one key.
- Intervals.KeepsItsIntervalExactly: the previous run is as it stood when the lock was taken; that the worker's own reconciliation then ends an orphan does not count as a run ending. It asks that the workers' clocks, between the check and the lock, do not go back (`ClockForward`).
- CoverageTheorems.RunsAgreeWithFreshStart: asks that a product active at the start is configured, as activating one makes it, and is in the order started.
- EvidenceTasks.FanOutIdempotent: asks that a spec's id identify it, as a primary key does.
- Engine.Assessment.PreviewActivation: the rollback restores the model's whole state; that the database's savepoint does so is not modelled.
