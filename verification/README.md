# DocPlane, verified

This project models the parts of DocPlane whose correctness rests on code that can be read in full, and proves what that code promises. It is a Dafny 4.11 project; `dafny verify dfyconfig.toml` checks all of it.

The cores, and the files that model them:

* **Link rewriting** (`migration/links.py`). A hand-written scanner for the `LINK` pattern, proved to find exactly the pattern's matches (`LinkGrammar`); what one destination edit does to a scan of the whole document (`LinkSplice`, `LinkContext`), and many edits (`LinkEdits`, `LinkManyEdits`); `posixpath` and link resolution (`PosixPath`, `LinkResolve`, `PathText`); planning and scanning (`LinkPlan`, `LinkScan`), their reconciliation (`LinkReconcile`, `LinkUndisturbed`, `LinkDisturbed`) and when planning fails (`LinkFences`); what is protected, reported and written, told from the documents (`LinkProtection`, `LinkReports`, `LinkTargets`); moving a page (`LinkMove`, `LinkMeaning`); what relative links and page URLs mean (`RelativeLinks`, `PageUrls`); redirect hops against RFC 3986 (`RedirectHop`).
* **The meter-list reconciler** (`scripts/meter_list.py`) and the entity store it drives (`docs-api/app/model_api.py`): `EntityStore`, `MeterRules`, `MeterList`, `MeterReconcile`, `MeterRun`, `MeterQuiet`, and the resulting table as its readers find it (`MeterTable`).
* **The release compiler** (`docs-api/app/generator.py`, `docs-api/app/corpus_structure.py`): the navigation tree (`NavTree`, `NavOrder`, `NavGroups`, `BuildNav`, `NavTheorems`, `NavPageOrder`, `NavExample`) and how it reads (`NavMeaning`), routes and redirects (`Routes`), the content augmenter (`Augment`, `AugmentMeaning`, `Badges`, `BadgeMeaning`) and link accounting (`CorpusLinks`, `LinkClasses`).
* **Generated-artifact ownership** (`docs-api/app/artifact_ownership.py`, `docs-api/app/model_api.py`): `Ownership`, `OwnershipTables`, and who can change what (`OwnershipMeaning`).
* **Two concurrent protocols**: migration runners in any interleaving (`MigrationHistory`, `MigrationRunners`, `MigrationProgress`, for `docs-api/migrate.py`) and the guarded catalogue capture (`Capture`, for `scripts/schema_catalogue_capture.py`).
* **Smaller cores**: heading sections and their identifiers (`HeadingLine`, `HeadingPattern`, `SectionIds`, `Sections`, `SectionExample`), the sliding-window issuance limiter (`IssueLimit`, `IssueRuns`), and masking and unmasking placeholders before redaction (`Redaction`, `RedactionMask`, `RedactionPatterns`, `RedactionUnmask`, `RedactionHides`, `RedactionGhost`).

`Text` holds the character classes and string methods of Python that all of them use.

Code that loops over changing variables is a method with that loop, proved to compute a specification function; objects and tables that are updated in place are classes; expression-only code is functions. Long method bodies are cut into helper methods at the source's own loop bodies. The modules whose names end in `Meaning`, and others named above for it, say what the specification functions mean without naming them: over the documents, rules, pages, tables and runs that go in and come out. Every lemma carries `{:induction false}`, so its body is its whole proof.

## Findings

Properties that one would expect, that the code does not have. Each has a concrete input and the condition under which the property does hold.

* **A rewrite can unprotect another link** (`LinkDisturbed.RewriteDisturbs`). `str.splitlines` breaks lines at U+000B and its like, counting newlines does not. On the page `[a](\u000B>/../o.md)` followed by a line `[b](o.md)`, moving `o.md` edits link a, whose destination made its line a quotation; the plan had preserved link b as quoted, and the scan after the rewrite reports b as unintended. The scan agrees with the plan exactly when no page is disturbed, which is told from the text before the rewrite (`LinkReconcile.RewriteThenScan`); pages whose line breaks are all `\n` or `\r\n` never are (`LinkUndisturbed.PlainRewriteThenScan`).
* **A rerun of the meter list need not be quiet** (`MeterQuiet.LateService`, `MeterQuiet.LateExample`). Rule `a` carries the label `svc`; the overlay maps rule `b` to `svc`, which no rule or service made known before. The first run skips the mapping, and the second applies it: after any completed first run from a table without that service the rerun has something to write (`MeterQuiet.LateRerun`), and when it completes it has written (`MeterQuiet.RunLate`). A rerun writes nothing exactly when the overlay, read with the services the run added, wants the same rules and no rule name has space around it (`MeterQuiet.QuietExactly`).
* **Navigation can depend on the order of pages** (`NavExample.MixedSection`). The domain of a top-level section is that of its first page. The pages `a.md` at `S/a` and `observe/b.md` at `S/b` build in both orders, into different navigation, whatever the normalization that tells `a` from `b`; so does some reordering of any pages of which two in one section differ in domain (`NavPageOrder.OrderMatters`). The order decides nothing exactly when every section keeps to one domain (`NavPageOrder.OrderFreeExactly`).
* **Unmasking need not undo masking** (`RedactionGhost.GhostExample`). In `{{a}} <X>PH0<Y>` two neighbouring sentinels form a third. The text comes back exactly when no two neighbours form such a ghost (`RedactionUnmask.RoundTripExactly`); a text without `PH` and a digit has no room for one.
* **Waiting as told need not be enough** (`IssueLimit.RetryCanFail`). Transaction timestamps need not follow the order of the lock. With a limit of 1 in 2 seconds and rows at 1 s and 3 s, a request that began at 2 s counts both and is told to wait 1 second; refused at 3.5 s, it is refused again at 4.5 s. Counted from when the refusal is heard, and with no new rows, the wait is enough exactly when more of the counted rows have left the window than were in it above the limit (`IssueLimit.RetryExactly`). That is so at exactly the limit (`IssueLimit.RetryPasses`), hence for a request that began after every row (`IssueLimit.RetryInOrder`), and for one that began before every row it counted (`IssueLimit.RetryFromBefore`).
* **An explicit heading identifier can lead to another section** (`SectionExample.ExplicitMisleads`). Headings with the same base are numbered, and a number can be what a later heading is called: after `# A {#a}` and `# B {#a}`, the second of which becomes `a-1`, looking for `a-1` never finds `# C {#a-1}`. It finds a heading by its explicit identifier exactly when no heading before it has that identifier as its base or as a number given to its base (`Sections.ExplicitFoundExactly`), and every section by the identifier given to it exactly when no base is spelled like a number given to another (`Sections.AllFoundExactly`).

## Model

| member | source | states |
|---|---|---|
| LinkGrammar.MatchAtIsThePattern | migration/links.py:87 | the scanner accepts a link at a start exactly when the LINK pattern can match it there, for any choice of its greedy and lazy splits; so there is one match per start |
| LinkGrammar.ScannedLink | migration/links.py:366-381 | every link of a scan is a match at its own start |
| LinkGrammar.ScanOrdered | migration/links.py:366-381 | links come in document order and do not overlap |
| LinkSplice.ScanEdited | migration/links.py:87 | editing one destination and scanning again finds the same links: earlier ones in place, the edited one with its new length, later ones moved |
| LinkSplice.FailsBefore | migration/links.py:87 | a match attempt that fails before an edited destination still fails, however far it looks ahead |
| LinkContext.ProtectedLines | migration/links.py:228-255 | the map holds exactly the lines inside fences and blockquotes with their reason, and an unterminated fence is refused with its marker and line |
| LinkProtection.ProtectionMeans | migration/links.py:228-255 | a page is refused exactly for its first fence that is never closed; otherwise the lines of fenced blocks are code, other lines that begin with `>` quotations, and no other line is protected |
| LinkProtection.SpansMean | migration/links.py:258-265 | the inline code spans are the paired backticks of each line |
| LinkProtection.RefMeans | migration/links.py:483-512 | each link is read with its text, its first and last line, and the first reason it is protected for |
| LinkContext.RefsEdited | migration/links.py:216-265 | replacing one destination leaves every link's label, lines and code spans, and of the kinds of lines changes only that of a line the old destination itself marked |
| LinkEdits.SpliceAll | migration/links.py:529-531 | the loop over reversed edits applies exactly those edits |
| LinkEdits.MaskSpliced | migration/links.py:216-221 | replacing a quote-free destination leaves the mask of the document the same text |
| LinkManyEdits.EditsAreWoven | migration/links.py:529-531 | splicing last to first gives the untouched stretches of the text with the replacements between them: every other character is unchanged |
| LinkManyEdits.CleanEdits | migration/links.py:483-537 | after any quote-free edits a scan finds as many links, in the same order, with the same labels and the chosen destinations, and the mask is the same text |
| LinkManyEdits.Reread | migration/links.py:366-381 | the references and protections read from an edited document, told from the document before |
| LinkReconcile.PlanMade | migration/links.py:525-537 | with quote-free destinations the mask guard never raises: planning makes a plan whose body is the woven text and scans to the decided destinations, and has no body exactly when nothing was decided |
| LinkScan.PlanCorpus | migration/links.py:540-547 | plans pages in path order, drops the ones that neither change nor preserve anything, and stops at the first failure |
| LinkScan.ScanStaleReferences | migration/links.py:550-586 | reports, page by page in order, the unprotected references to old paths and the preserved ones with their reasons |
| LinkPlan.PlanRewrites | migration/links.py:483-537 | decides every link by its first candidate that moves and by its protection, and plans exactly those decisions |
| LinkReconcile.PageReconciles | migration/links.py:483-586 | a planned page scans to the preservations its plan declared exactly when it is left undisturbed; at any rate every finding is one of them or its loss |
| LinkReconcile.RewriteThenScan | migration/links.py:483-586 | where no new path is an old one, planning a corpus fails only on an open fence, and scanning the rewritten corpus finds nothing unintended and just the declared preservations exactly when no page is disturbed |
| LinkUndisturbed.OpensNoneUndisturbed | migration/links.py:228-255 | a page where no replaced destination comes first on its line with a fence or quotation mark is undisturbed |
| LinkUndisturbed.PlainRewriteThenScan | migration/links.py:540-586 | for pages whose line breaks are all LF or CR LF, plan and scan always reconcile |
| LinkDisturbed.RewriteDisturbs | migration/links.py:228-255 | a page with U+000B, well-formed paths and no quotes or backticks, whose plan preserves a link that the scan afterwards reports as unintended |
| LinkFences.PagePlanned | migration/links.py:483-537 | for a well-formed page, well-formed new paths and quote-free destinations to replace, planning a page fails only with its own open fence, and otherwise the body is the text with the new destinations woven in |
| LinkFences.PlanFailsExactly | migration/links.py:483-547 | and planning a corpus fails exactly when some page leaves a fence open, and reports such a fence |
| LinkTargets.RewriteCorpus | scripts/docplane_links.py:132-165 | applying a mapping to a corpus fails exactly on an open fence; afterwards every unprotected link whose first mapped candidate is `c` denotes exactly the page `c` moved to, with its own fragment and root-absolute form, and every other link keeps its destination |
| LinkTargets.CorpusFollows | migration/links.py:540-547 | the same of the bodies that planning a corpus returns |
| LinkTargets.PageFollows | migration/links.py:483-537 | the same of one page, whose plan also lists exactly those rewrites and the protected links that move, with lines, destinations and reasons |
| LinkTargets.TargetParts | migration/links.py:277-280 | what the fragment and the root-absolute form of a destination are |
| LinkReports.ScanMeans | migration/links.py:550-586 | a scan reports exactly the unprotected links that can denote an old path, with where they stand and all they can denote, and the protected ones with their reason |
| LinkResolve.ResolveInvertsRetarget | migration/links.py:277-363 | a destination written for a well-formed page resolves on it to exactly the new path, with fragment and root-absolute form kept |
| RelativeLinks.RelativeCandidates | migration/links.py:312-340 | a relative link means the file it climbs to when it names a Markdown file, else the page of that name and then the index of that directory, and nothing at the top, for a dot alone, or for another file |
| RelativeLinks.ClimbResolved | docs-api/app/corpus_structure.py:132-150 | the corpus analysis comes to the same place, except that climbing above the top stays there |
| PageUrls.WellFormedMeans | docs-api/app/publication.py:32 | the well-formed paths are directory names and a page name in small letters, digits, underscores and hyphens, joined by slashes |
| PageUrls.UrlOf | docs-api/app/generator.py:86-96 | `a/b.md` and `a/b/index.md` are both served at `/a/b/`, by the release and by the link tooling |
| PageUrls.ServedIsCandidate | migration/links.py:283-340 | the URL a page is served at, used as a link, has that page among its candidates |
| PageUrls.ServedIsResolved | docs-api/app/corpus_structure.py:132-150 | and the corpus analysis resolves that URL to that page |
| PageUrls.RetargetIsResolved | docs-api/app/corpus_structure.py:132-150 | and what the link tooling writes for a page |
| PosixPath.FoldRelParts | migration/links.py:358-363 | walking the relative path from a directory leads to the path it was computed for |
| RedirectHop.RemoveFolds | migration/links.py:446-454 | the dot-segment removal of section 5.2.4 of RFC 3986 is the component fold of `normpath` |
| RedirectHop.HopReachesNewUrl | migration/links.py:437-454 | following the expected hop from the old URL by section 5.2 of RFC 3986 gives exactly the new URL, from any working directory |
| LinkMove.PlanSourceMove | migration/links.py:593-653 | decides every relative unprotected link by its first candidate before and after the move, and plans exactly those decisions |
| LinkMeaning.MoveKeepsMeaning | migration/links.py:593-653 | after a move every unprotected relative link whose first candidate is a well-formed path resolves to that same path, with its fragment; root-absolute, external and protected links and all other text are unchanged; no body exactly when no link needs a correction |
| LinkMeaning.MoveReports | migration/links.py:593-653 | the plan lists exactly the corrected links, with line, old and new destination and the page they mean, and the protected relative links that mean one, with the reason |
| PathText.RetargetClean | migration/links.py:358-363 | a destination retargeted between paths without spaces, quotes or ')' holds none of them either |
| EntityStore.Store.Create | docs-api/app/model_api.py:105-159 | creates at version 1 with a stripped name, refuses a taken key, and may commit without the caller hearing of it |
| EntityStore.Store.Update | docs-api/app/model_api.py:226-280 | replaces name and attributes at the expected version only |
| EntityStore.Store.SetStatus | docs-api/app/model_api.py:282-350 | retires or reactivates at the expected version, and writes nothing when the status is already so |
| EntityStore.Store.Link | docs-api/app/model_api.py:353-405 | adds a link or replaces its metadata unless there is none to put, refusing self links and missing ends |
| EntityStore.Store.Unlink | docs-api/app/model_api.py:407-445 | removes the link and nothing else |
| MeterRules.AssignedAreClaims | scripts/meter_list.py:160-190 | the overlay is refused exactly when two known mappings give one unlabelled rule to different services; otherwise the assignments are exactly the claims |
| MeterRules.AssignedSame | scripts/meter_list.py:160-190 | learning of services that no matching mapping names changes no assignment |
| MeterRun.OverlayAssignments | scripts/meter_list.py:160-190 | the nested loops compute those assignments or the refusal |
| MeterRules.DesiredIsFrom | scripts/meter_list.py:440-448 | each desired entry comes from the last rule with its key |
| MeterList.EnsureService | scripts/meter_list.py:425-432 | a known service is left alone, a missing one created; a key taken by a retired service is refused |
| MeterList.Rewire | scripts/meter_list.py:504-541 | afterwards the rule's WATCHES links are exactly the wanted ones, and nothing is written when they were |
| MeterList.ReconcileRule | scripts/meter_list.py:472-541 | afterwards the rule is ACTIVE with the wanted attributes and exact links; on any stop no other card differs and no identity is lost |
| MeterReconcile.StillAllowed | scripts/meter_list.py:450-461 | retiring part of the absent rules leaves a list the mass-retirement guard still accepts, so a stopped run can resume |
| MeterRun.Converge | scripts/meter_list.py:462-541 | the two loops reach convergence or stop safely; a converged store is not written to |
| MeterRun.ReconcileEntities | scripts/meter_list.py:379-553 | on every exit no identity is lost, only absent rules are retired and at most max(5, n/5) without the override; a completed run has converged, and wrote nothing exactly when nothing was left to write; every stop has one of the listed causes |
| MeterTable.ListMeters | scripts/meter_list.py:357-553 | a completed run leaves, for the last rule with each key, a card with that rule's own name, kind, expression, file, page, group, description flag, severity, pending time and runbook, and one WATCHES link to its labelled service or the one the overlay gives it, marked as such, or none; every other rule is RETIRED; any run keeps all other cards and takes away little; every stop has a reason that holds |
| MeterTable.ConvergedLists | scripts/meter_list.py:357-448 | any table that has what is wanted lists the rules so |
| MeterQuiet.QuietExactly | scripts/meter_list.py:379-553 | after a completed run the next one has nothing to write exactly when the overlay wants the same rules again and no name is padded |
| MeterQuiet.SameDesired | scripts/meter_list.py:379-553 | after a run stopped at any call the same rules are wanted, if no late service is named |
| MeterQuiet.RunsResume | scripts/meter_list.py:379-553 | over any number of runs, each stopped anywhere or completed: every completed one converged to the first list, the guard stops none it did not stop at first, and after a completed one no later one writes |
| MeterQuiet.RunRepeatedly | scripts/meter_list.py:379-553 | the same of the reconciler itself, called any number of times |
| MeterQuiet.LateService | scripts/meter_list.py:160-190 | a rerun of the same inputs that wants another list than the first run did |
| MeterQuiet.LateRerun | scripts/meter_list.py:379-553 | after any completed first run on these inputs the rerun has something to write |
| MeterQuiet.LateExample | scripts/meter_list.py:379-553 | from the empty table such a first run can complete, with a rerun that is not quiet |
| MeterQuiet.RunLate | scripts/meter_list.py:379-553 | the reconciler itself, run twice on these inputs: when both runs complete, the second has written |
| NavTree.InsertMeans | docs-api/app/generator.py:286-309 | a page can be inserted exactly when it fits every page in the tree, and insertion adds that page and nothing else |
| NavOrder.Serialized | docs-api/app/generator.py:312-343 | serializing sorts every level and keeps every page as often as it was |
| NavOrder.OneOrder | docs-api/app/generator.py:312-343 | two ordered trees with the same pages are the same tree |
| NavOrder.SerializeCanonical | docs-api/app/generator.py:312-343 | serializing forgets the order in which pages were inserted |
| NavGroups.GroupByDomain | docs-api/app/generator.py:404-428 | the loop gives every domain exactly its sections, unwrapping a section named like its domain |
| NavGroups.GroupsKeepPages | docs-api/app/generator.py:404-428 | the four groups hold exactly the pages of the tree |
| BuildNav.BuildMeans | docs-api/app/generator.py:346-388 | strict building succeeds exactly when the pages go together two by two, and then the tree holds exactly them |
| NavTheorems.BuildNavigation | docs-api/app/generator.py:346-388 | the loops of `build_nav` compute the built navigation or its first conflict |
| NavTheorems.EveryPageOnce | docs-api/app/generator.py:346-428 | on success the leaves after sorting and grouping are exactly the input pages, each once |
| NavMeaning.NavigationReads | docs-api/app/generator.py:312-428 | the navigation reads: the home page, then the groups of the four domains in order, each entry a page under its labels, each page once; below the top a page titled `overview` comes first, then by authored order (1000 if none), then by normalized name; sections by their order (10000 if none), then by name |
| NavMeaning.OnePiece | docs-api/app/generator.py:365-372 | a piece of a navigation path between slashes is one label, stripped, or none when it is blank |
| NavMeaning.PiecesJoin | docs-api/app/generator.py:365-372 | the labels on both sides of a slash follow one another |
| NavPageOrder.OrderMatters | docs-api/app/generator.py:391-428 | when a section mixes domains, some order of the same pages gives other navigation |
| NavExample.MixedSection | docs-api/app/generator.py:391-428 | two pages, `a.md` at `S/a` and `observe/b.md` at `S/b`, build in both orders into different navigation, for any normalization that tells `a` from `b` |
| NavPageOrder.OrderFreeExactly | docs-api/app/generator.py:346-428 | the navigation is the same for every order of the pages exactly when every top-level section keeps to one domain |
| Routes.OwnUrlOwnFile | docs-api/app/generator.py:78-96 | two outputs share an URL exactly when they share an HTML file |
| Routes.PublishedAt | docs-api/app/generator.py:78-96 | the URL and the HTML file of any path: its directory, and its name without the suffix unless it is `index.md` |
| Routes.ComponentsDrop | docs-api/app/generator.py:80-96 | empty components and single dots of a path make no difference |
| Routes.StemMeans | docs-api/app/generator.py:80-96 | the suffix that is dropped is what follows the last dot, if there is a name before it and something after it |
| Routes.ValidateRoutes | docs-api/app/generator.py:99-112 | gives exactly the URLs that more than one output claims, each with all its claims, and none exactly when every output has its own URL |
| Routes.ValidateRedirects | docs-api/app/generator.py:115-156 | accepts exactly when every redirect leads from no page to a page that is no source and renders elsewhere; a refusal is of the first unsound source, for the first thing wrong with it |
| Routes.AcceptedRelease | docs-api/app/generator.py:78-156 | an accepted release gives every page and stub its own URL and file, and every redirect reaches an active page in one hop without a cycle |
| Routes.FollowRedirects | docs-api/app/corpus_structure.py:116-129 | terminates on every map and is None exactly when the chain enters a cycle; otherwise ends at a hop that is no source |
| Augment.AugmentContent | docs-api/app/generator.py:247-279 | the two loops compute the augmented content |
| Augment.AugmentAgain | docs-api/app/generator.py:247-279 | augmenting the output of any earlier augmenting gives what augmenting the original gives, whatever the badges were, with or without a title |
| Augment.AugmentKeepsText | docs-api/app/generator.py:247-279 | the output is the stamp, the badges once and right below the first title or on top, and the page's own lines of text in order |
| AugmentMeaning.AugmentMeans | docs-api/app/generator.py:247-279 | an augmented page reads: the stamp, the page's own lines up to its first title, the badges, the rest of its own lines, each line ended by a line feed; not its own are the stamp, lines that open the meta strip and the old marker |
| Badges.BadgesAreMarkup | docs-api/app/generator.py:210-244 | for all metadata the table admits the strip is one line that augmenting recognises and strips |
| BadgeMeaning.StripReads | docs-api/app/generator.py:210-244 | what a reader sees outside the tags: the domain, the class of what is no work note, whether it is generated, the time and the version |
| BadgeMeaning.DomainShown | docs-api/app/generator.py:203-207 | a page is in `work` if it is a work note, else in the surface its path is under, else in `know` |
| BadgeMeaning.ClassShown | docs-api/app/generator.py:222-225 | the class label is the stored name in title case |
| BadgeMeaning.DomainLabelShown | docs-api/app/generator.py:166 | and the domain's label is its name in title case |
| BadgeMeaning.RenderedReads | docs-api/app/generator.py:228-239 | the time is read back from its text |
| Badges.AugmentPageAgain | docs-api/app/generator.py:210-279 | augmenting a page anew after any metadata change starts over from its own text |
| CorpusLinks.AnalyseLinks | docs-api/app/corpus_structure.py:153-287 | the counters are those of all links, the listed entries are exactly the broken links with their pages, directory by directory as many as there are, and listed and dead-target references each sum to the broken count |
| CorpusLinks.CountsBalance | docs-api/app/corpus_structure.py:172-235 | total splits into retired, external, anchor, asset, self, app-route and internal; internal into active, archived, redirect and broken |
| CorpusLinks.CountsAreNumbers | docs-api/app/corpus_structure.py:172-235 | each of the twelve counters is the number of links of its class |
| CorpusLinks.OutcomesAreAll | docs-api/app/corpus_structure.py:172-235 | what is counted is every link of every page, in order |
| CorpusLinks.BrokenInMeans | docs-api/app/corpus_structure.py:172-222 | the listed entries are the links that are broken, with the page they are on |
| LinkClasses.SpecialMeans | docs-api/app/corpus_structure.py:178-188 | an old documentation host, another scheme and an anchor are told by the text alone, in this order |
| LinkClasses.InternalMeans | docs-api/app/corpus_structure.py:189-199 | then files that are no pages, by the ending before a fragment or query; then links to the page itself; then routes of the application; all others are internal |
| LinkClasses.ClampMeans | docs-api/app/corpus_structure.py:132-150 | leading `../` are dropped, and nothing else |
| LinkClasses.DestinationMeans | docs-api/app/corpus_structure.py:199-220 | an internal link leads to an active page or its index, else an archived one, else over a chain of redirects to either, else it is broken |
| LinkClasses.FollowsExactly | docs-api/app/corpus_structure.py:116-129 | a chain of redirects is followed to an end exactly when it has that end |
| LinkClasses.ActiveIsNotBroken | docs-api/app/corpus_structure.py:132-222 | a link that comes to an active page is never broken |
| LinkClasses.DirectoryMeans | docs-api/app/corpus_structure.py:53-54 | a page is reviewed with the directory its path names |
| CorpusLinks.SharesAreAll | docs-api/app/corpus_structure.py:390-522 | the broken links counted directory by directory are all of them, each once |
| CorpusLinks.ScoreBroken | docs-api/app/corpus_structure.py:497-522 | exactly the directories with broken links get a reason, with their number; the measures sum to the broken count, or to nothing when the resolver is suspect |
| CorpusLinks.Review | docs-api/app/corpus_structure.py:360-522 | analysis and scoring together account for every broken link once: one reason for each directory with broken links on its pages, with how many there are |
| Ownership.RunKeeps | docs-api/app/artifact_ownership.py:119-247 | over every run of declare, reconcile, handoff, retire, reassign and page edits: one owner per page, no RETIRED owner, one declaration per key, owned pages GENERATED, nothing disappears, versions never decrease |
| OwnershipMeaning.OnlyItsCustodian | docs-api/app/artifact_ownership.py:58-247 | over any run without a reassignment of its custody, an artifact keeps its custodian, and its row and its pages change only by that principal's own requests |
| OwnershipMeaning.ReconcileMeans | docs-api/app/artifact_ownership.py:58-161 | a reconcile is accepted exactly from the custodian of a DECLARED artifact, at its version, for existing unowned pages listed with their own paths, letting only archived pages go; it then replaces the set, and every refusal has a reason that holds |
| OwnershipMeaning.HandoffMeans | docs-api/app/artifact_ownership.py:164-247 | the same of a handoff, which must also keep the key and raise the contract version |
| OwnershipMeaning.DeclareMeans | docs-api/app/model_api.py:630-719 | the same of a declaration, by automation principals, of a free key and free pages |
| OwnershipMeaning.RetireMeans | docs-api/app/model_api.py:846-906 | the same of a retirement, by the custodian, of an artifact without pages |
| OwnershipMeaning.ReassignMeans | docs-api/app/model_api.py:909-992 | the same of moving custody, to an active automation principal, which changes nothing else |
| Ownership.ReconcileReaches | docs-api/app/artifact_ownership.py:119-161 | the artifact owns exactly the wanted set, others what they owned; pages let go are archived; the version moves exactly when something changed |
| Ownership.ReconcileAgain | docs-api/app/artifact_ownership.py:140-161 | repeating a reconcile at the version it returned succeeds and changes nothing |
| Ownership.HandoffReaches | docs-api/app/artifact_ownership.py:164-247 | the successor owns exactly the wanted set, the predecessor nothing and is RETIRED; pages let go are archived |
| OwnershipTables.Tables.ReconcileTargets | docs-api/app/artifact_ownership.py:119-161 | accepts exactly the custodian's fitting request at the current version and then replaces the set; every refusal has a reason that holds, and changes nothing |
| OwnershipTables.Tables.HandoffTargets | docs-api/app/artifact_ownership.py:164-247 | the transaction's states follow one another by one statement each, and in each of them every continuing page has an owner and no unique index is violated; accepts exactly the custodian's fitting request, and every refusal has a reason that holds and changes nothing |
| OwnershipTables.Tables.DeclareArtifact | docs-api/app/model_api.py:630-719 | accepts exactly fitting declarations by automation principals, the unique indexes refusing a taken key or an owned page; otherwise the artifact owns its pages |
| OwnershipTables.Tables.RetireArtifact | docs-api/app/model_api.py:846-906 | retires exactly when its custodian asks, at the expected version, for an artifact without targets |
| OwnershipTables.Tables.ReassignCustody | docs-api/app/model_api.py:909-992 | moves custody exactly of a DECLARED artifact at its version to an active automation principal, and nothing else |
| MigrationHistory.Discover | docs-api/migrate.py:38-76 | succeeds exactly when no file has a fault and the ordinals are consecutive, and returns the migrations in order; a refusal is of the first fault, or for none found, or for a gap |
| MigrationHistory.NamesAre | docs-api/migrate.py:21 | the accepted names are three digits, an underscore, and a subject in small letters, digits and underscores, before `.sql`; the ordinal is the number the digits write |
| MigrationHistory.DiscoversExactly | docs-api/migrate.py:38-76 | a directory is accepted exactly when it has migrations, numbered in a row and all text, and no other SQL file; they come with their own names, digests and numbers, in order |
| MigrationHistory.FaultMeans | docs-api/migrate.py:44-58 | a file is refused for being another SQL file, for a number an earlier file has, or for bytes that are no text, in this order |
| MigrationHistory.VerifyHistory | docs-api/migrate.py:119-160 | accepts exactly a gap-free ledger with the image's own filenames and checksums, and returns the ordinals that are ahead, ascending; a refusal is of the lowest row with a problem, or for a gap |
| MigrationHistory.RowProblemMeans | docs-api/migrate.py:136-155 | a row is unknown below the image, drifted by name when the image's migration is called otherwise, else by checksum |
| MigrationRunners.StepKeeps | docs-api/migrate.py:163-205 | no step of any runner breaks the invariant, rewrites a row or undoes an effect |
| MigrationRunners.RunsAreOrderly | docs-api/migrate.py:38-205 | in any interleaving of any number of runners able to fail anywhere, the ledger is a gap-free run, no row is rewritten, each migration takes effect once and in order |
| MigrationRunners.FinishedIsRecorded | docs-api/migrate.py:163-205 | a runner that finished has all its migrations recorded, then and later |
| MigrationProgress.CanFinishExactly | docs-api/migrate.py:163-205 | in any reachable state a runner that has not failed can still come to its end with all its migrations recorded, exactly when what is recorded agrees with its image: no runner is ever stuck |
| MigrationRunners.RefusedForDriftOnly | docs-api/migrate.py:119-160 | against such a ledger an image is refused exactly for drift of a migration it has |
| MigrationRunners.Database.ApplyPending | docs-api/migrate.py:163-205 | the loop, with other runners committing between its transactions, keeps the ledger orderly and on success has every migration recorded, and reports names of migrations that took effect meanwhile, all of them if it was alone; a refused history changes nothing, and every stop has a reason that holds |
| Capture.AcquireShared | scripts/schema_catalogue_capture.py:66-82 | holds the lock exactly when it says so, has waited whole polls, and no migration is half recorded then |
| Capture.ReadAll | scripts/schema_catalogue_capture.py:94-160 | what one attempt reads under the lock, with its grants or without, comes from one state committed between the call and the return; the three ledger readings differ only when grants moved in that time |
| Capture.CaptureWithLedger | scripts/schema_catalogue_capture.py:94-160 | the lock is released on every exit, at most `attempts` attempts are made, and a consistent capture pairs structure and ledger of one state from between the call and the return, with no half-recorded migration; running out of attempts means grants moved in that time |
| IssueLimit.Principals.SelfIssue | docs-api/app/agent_access_api.py:121-186 | issues exactly when the source has fewer rows than its limit in the burst window and in the last hour, and all sources together fewer than theirs in the last hour; a refusal names the first limit that is reached, its count and the least wait |
| IssueRuns.RunHolds | docs-api/app/agent_access_api.py:121-186 | over any run of requests from an empty table, whatever the order of timestamps: in every half-open window each source has at most the burst limit in the burst window and the hourly limit in an hour, and all together at most the global limit in an hour |
| IssueRuns.IssueAll | docs-api/app/agent_access_api.py:121-186 | the same of the requests served one after the other |
| IssueLimit.WindowHolds | docs-api/app/agent_access_api.py:42-149 | whatever the order of timestamps, no half-open window of the configured length holds more issuances than its limit, per source and globally |
| IssueLimit.RetryExactly | docs-api/app/agent_access_api.py:42-118 | a refused request that waits as told from when it hears of it, with no new rows, passes that check exactly when more of the counted rows have left the window than were in it above the limit |
| IssueLimit.CountedAtMost | docs-api/app/agent_access_api.py:42-149 | a check that began after every row counts at most its limit |
| IssueLimit.RetryPasses | docs-api/app/agent_access_api.py:42-118 | refused at exactly the limit, a request after the told wait with no new rows passes that check |
| IssueLimit.RetryInOrder | docs-api/app/agent_access_api.py:42-149 | a refused request that began after every row was refused at exactly the limit, and passes after the told wait |
| IssueLimit.RetryFromBefore | docs-api/app/agent_access_api.py:42-118 | and so does one that began before every row it counted |
| IssueLimit.RetryCanFail | docs-api/app/agent_access_api.py:42-118 | rows that the checks let in, and a request between them that is refused, waits as told after hearing of it, and is refused again |
| HeadingLine.ReadsBack | docs-api/app/markdown_sections.py:16-18 | a heading written with a title and an identifier is read with exactly that level, title and identifier |
| HeadingPattern.HeadingIsThePattern | docs-api/app/markdown_sections.py:16-18 | a line is a heading exactly when one to six hashes are followed by a blank, and is read in its parts: the shortest title after which only blanks, or an identifier in braces and blanks, are left |
| Sections.ScanHeadings | docs-api/app/markdown_sections.py:43-74 | the scan with its fence state and its counts finds exactly the headings outside fences, each numbered by how often its base came before |
| Sections.SectionsOf | docs-api/app/markdown_sections.py:43-96 | every heading's section has its title, level and identifier, runs to the next heading that is not deeper, and holds and hashes exactly those lines |
| Sections.Laminar | docs-api/app/markdown_sections.py:76-83 | two sections are nested or apart, and nested exactly when the headings between are deeper |
| Sections.OutermostAre | docs-api/app/markdown_sections.py:76-83 | the outermost sections are exactly the ones inside no other |
| Sections.SectionsCover | docs-api/app/markdown_sections.py:43-96 | the text before the first heading and the outermost sections in order are the whole document |
| SectionIds.UniqueExactly | docs-api/app/markdown_sections.py:69-73 | identifiers are unique exactly when no base is spelled like a number given to another base |
| Sections.FindSection | docs-api/app/markdown_sections.py:114-115 | gives the first section with that identifier, or nothing when there is none |
| Sections.AllFoundExactly | docs-api/app/markdown_sections.py:43-115 | every section is found by the identifier given to it exactly when no base is spelled like a number given to another base |
| Sections.ExplicitFoundExactly | docs-api/app/markdown_sections.py:43-115 | looking for an explicit identifier finds its heading exactly when no heading before has it as base or as a number given to its base |
| SectionExample.ExplicitMisleads | docs-api/app/markdown_sections.py:43-115 | a page of three headings where looking for the third one's explicit identifier finds the second |
| RedactionMask.MaskProtected | migration/redaction.py:207-221 | the literal passes and the three pattern passes, in their order, give this text and these stored values |
| RedactionPatterns.MustacheIsThePattern | migration/redaction.py:104 | the brace pattern matches exactly a phrase in double braces with white space around it |
| RedactionPatterns.EnvIsThePattern | migration/redaction.py:101 | the dollar pattern matches the longest name in capitals after a dollar sign, with braces or without |
| RedactionPatterns.AngleIsThePattern | migration/redaction.py:107 | the angle pattern matches exactly a name in angle brackets |
| RedactionMask.MaskingMasks | migration/redaction.py:207-221 | a masked text is characters and sentinels behind which exactly the original stands |
| RedactionHides.MaskingHidesAll | migration/redaction.py:196-221 | in a masked text no approved literal occurs and no placeholder pattern matches anywhere |
| RedactionUnmask.UnmaskProtected | migration/redaction.py:224-227 | replaces the sentinels in order, one after the other |
| RedactionUnmask.RoundTrip | migration/redaction.py:207-227 | masking and unmasking gives back any text with no NUL and no PH before a digit |
| RedactionUnmask.RoundTripExactly | migration/redaction.py:207-227 | any text without NUL comes back exactly when no two neighbouring sentinels of its masking form a ghost |
| RedactionGhost.GhostExample | migration/redaction.py:207-227 | a text without NUL that masking and unmasking does not give back |

## Left out

- LinkReconcile.RewriteThenScan: links to be rewritten have destinations without quotes and backticks, and page paths and new paths are well-formed; a quote can end a title elsewhere, a backtick can end a code span elsewhere, and a destination written for an ill-formed path need not resolve to it. Nothing is asked of other links or of old paths.
- LinkMeaning.MoveKeepsMeaning: corrected destinations hold no quotes; where a link does not denote a well-formed path, the old page's path and the working directory hold no spaces, quotes or `)`. What a link that denotes an ill-formed path means after the move is not stated.
- LinkTargets.RewriteCorpus: the same conditions: page paths and new paths are well-formed, and the destinations to be replaced hold no quotes or backticks.
- RelativeLinks.ClimbResolved: links without a query and without white space at their ends.
- MigrationHistory.Discover: the three digits of a name are ASCII digits; the pattern's `\d` also matches other decimal digits, which `int` reads.
- MeterQuiet.RunsResume: one fingerprint, with nobody else writing between the runs, and no late service named; without the last condition `MeterQuiet.QuietExactly` says when a rerun is quiet.
- MeterRun.ReconcileEntities: the store can also refuse a request as malformed, for a display name over 300 characters, a key outside its pattern or attributes that fail their checks; such answers are not modelled, nor are idempotency receipts and events: keys are fresh.
- IssueLimit.WindowHolds: half-open windows, as the check counts rows strictly after its bound.
- CorpusLinks.AnalyseLinks: the pattern that finds link targets in a page's content; targets are given. The lists of references to archived pages and retired hosts are counted, not listed.
- Routes.ValidateRoutes: the claims of an URL are listed in the order they were made, not sorted.
- NavTree.InsertMeans: `_insert` is modelled on values; that it mutates nested dicts in place is not captured. Only `strict=True` is modelled, and which of several conflicts is reported first is not claimed to be independent of page order.
- Capture.CaptureWithLedger: writers that run statements outside the lock, or die between the commits of a migration and its ledger row.
- EntityStore.Store.Create: identifiers are the kind and key that the unique index identifies, not UUIDs.
- Taken as given, as parameters: `urllib.parse.unquote`, the working directory, the evidence-surface pattern, `str.lower`, `_slug`, `fnmatchcase`, `_normalize_segment`, the domain icons, the ledger digest, the digest of a section's text, the clock, `0.2 * n` rounded down as `n / 5`, and the order `sorted` gives to paths. Loops over sorted keys whose order does not matter take the keys in any order.
- Not modelled: HTTP, FastAPI routing, psycopg2, YAML and JSON, environment and secrets, rsync and the site build; hashes and UUIDs; publication, trust and work APIs; the secret detectors; page rendering, the outline and summary views of a page; the dashboard, the editor and the MCP server.
