# LibrePaper, verified

A Dafny model of the two engines LibrePaper rests on and of the small
algorithms around them, with proofs of what they promise.

**Comment anchors.** The planner moves comment spans through batches of edits
and remembers deleted text, so that cut and paste, undo and partial cuts keep
comments exact. `MoveMemory.dfy` holds the memory, `AnchorEdits.dfy` one edit
and one batch over a file, `AnchorIdentity.dfy` the same over characters that
carry their identity, `AnchorCompose.dfy` deltas and composed batches,
`AnchorRepin.dfy` and `AnchorRepinRuns.dfy` putting remembered text back,
`AnchorPlan.dfy` whole operations and sessions, `CutPaste.dfy`,
`PartialCut.dfy` and `DragDrop.dfy` the round trips, `AnchorWrites.dfy` which
records an operation writes, `AnchorInsertions.dfy` which insertions phase 2
finds, `MovedNewline.dfy` where two pins can meet, `Planner.dfy` the loops as
they run, `Fragments.dfy` the matching of fragments to deletions,
`AnchorIndex.dfy` the cache of every file's anchors and `AnchorCache.dfy` what
recording an operation makes of each cached comment.

**Sync.** A working directory and a web project exchange versions.
`SyncFiles.dfy` is what a scan sees and how it compares, `LineEnding.dfy` and
`Utf8.dfy` the text on disk, `Diff.dfy` the patches, `PushPlan.dfy` what a push
sends and how the server takes it, `Reconcile.dfy` the three-way pull,
`SyncState.dfy` the durable state and the calls that change it,
`SyncProtocol.dfy` directory, server and lossy network as a state machine,
`PushSafety.dfy`, `PushHistory.dfy` and `QuietPull.dfy` what holds of its runs,
and `VersionChain.dfy` versions as commits over a repository.

**Algorithms.** `Highlight.dfy` paints annotations over text nodes,
`FlatText.dfy` and `QuoteSearch.dfy` find quoted passages, `QuoteContext.dfy`
says what their score measures, and `Collected.dfy` keeps the bounded output of
a process.

Text in the browser is a sequence of UTF-16 code units; text on disk is a
sequence of characters, each given by its UTF-8 bytes. Methods follow the loops
of the source and are proved to compute a function; the properties are proved
of the functions. Orders in which maps are walked, answers of the server, folder
contents and line scripts are parameters.

Assumptions of the sync model: the server answers a repeated operation key with
its first receipt; a post is handled before its retry or never; pulls and
pushes of a directory run one at a time, as the claim on a connection makes
them, while checks run beside them and beside each other; operation keys and
head identities never repeat; digests are injective where a lemma says so; the
rules and exclusions of a directory do not change; a git tree is a flat map from
paths to modes and contents, and a commit is known by its tree, parents and
message.

Four promises hold only under a condition, which is proved both ways.

- A push can be lost to a check. `web_changed` saves the whole state its caller
  loaded, and the status of a connection asks it without taking the claim, so a
  push saved meanwhile is overwritten (`PushSafety.StaleCheckLosesAPush`). A run
  is safe exactly when no check saves a copy whose baseline or pending push is
  no longer the saved one (`PushSafety.RunIsSafeExactly`); taking the claim is
  enough (`PushSafety.ClaimedChecksLoseNothing`). Quiet pulls stay true either
  way (`QuietPull.RecordedHeadIsTrue`).
- Two comments can be pinned over one character by one insertion
  (`MovedNewline.MovedNewlineSpills`): exactly when a piece takes the newline
  that moved to the other end and the other piece is on the character beside
  its claim (`AnchorRepinRuns.SaneSpansApart`).
- A version that is skipped as unchanged leaves a pushed commit beside the chain
  behind (`VersionChain.SkippedOwnIsLeftBehind`); every other call keeps it
  (`VersionChain.TipHoldsOwn`), and callers never skip with a pushed commit.
- The score of a quoted passage can count more than the context around it
  (`QuoteContext.CrossedScoresMore`), because the texts are turned round by code
  points and compared by code units. It is the context exactly when, where the
  two stop agreeing, one does not end in a surrogate pair whose halves the other
  ends in the other way round (`QuoteContext.ScoreMeans`); texts without lone
  first halves are never like that (`QuoteContext.WholePairsArePlain`).

Check everything with `dafny verify dfyconfig.toml`.

## Model

| member | source | states |
|---|---|---|
| `SessionMemory.OnceMeans` | web/src/lib/anchors.js:68-73 | `once` answers an offset exactly when the text occurs there and nowhere else, overlapping occurrences included |
| `SessionMemory.LocateMeans` | web/src/lib/anchors.js:68-86 | a hit is the only occurrence of the remembered text as it was, or with its newline at the other end, the offset and shift say which, and a text that is not found occurs once neither way |
| `SessionMemory.FindsNewest` | web/src/lib/anchors.js:126-134 | `find` answers the newest entry below the bound that is found on a free place, and nothing exactly when there is none |
| `SessionMemory.RememberSound` | web/src/lib/anchors.js:104-109 | remembering fitting pieces keeps every entry's pieces at their offset in its text, and the memory within its limit |
| `SessionMemory.RememberKeepsNewest` | web/src/lib/anchors.js:104-109 | what is remembered afterwards is the newest deletions, as many as the limit allows, in their order |
| `SessionMemory.DropTakesOne` | web/src/lib/anchors.js:141-144 | dropping a hit removes exactly that entry and keeps the others in order |
| `SessionMemory.DropSound` | web/src/lib/anchors.js:141-144 | dropping keeps the memory sound |
| `SessionMemory.ForgetSound` | web/src/lib/anchors.js:154-160 | forgetting a comment removes its pieces, every other piece stays, no entry is left empty and the memory stays sound |
| `SessionMemory.PieceLands` | web/src/lib/anchors.js:79-86 | a held piece lands inside the claimed span exactly when it does not hold the moved newline, and then it reads there as it was |
| `SessionMemory.MoveMemory.Remember` | web/src/lib/anchors.js:104-109 | the new memory is the old one with the text appended and the oldest entries dropped past the limit; an empty text or no pieces changes nothing |
| `SessionMemory.MoveMemory.Find` | web/src/lib/anchors.js:126-134 | the search from the newest entry down refines the recursive one, and changes nothing |
| `SessionMemory.MoveMemory.Drop` | web/src/lib/anchors.js:141-144 | the memory without that one entry |
| `SessionMemory.MoveMemory.Forget` | web/src/lib/anchors.js:154-160 | the memory without the pieces of that comment |
| `AnchorEdits.StepInText` | web/src/lib/anchors.js:213-284 | an anchor attached after one edit is a non-empty span inside the edited text, and was attached before it |
| `AnchorEdits.StepPlaced` | web/src/lib/anchors.js:206-287 | one edit keeps every attached anchor a non-empty span of the running text |
| `AnchorEdits.PiecesFit` | web/src/lib/anchors.js:213-261 | the pieces one deletion remembers, whole or cut from an edge, read in the deleted text at their recorded offset |
| `AnchorEdits.StepMemorySound` | web/src/lib/anchors.js:213-261 | one edit leaves the memory sound |
| `AnchorEdits.RunMemorySound` | web/src/lib/anchors.js:202-291 | every batch leaves the memory sound |
| `AnchorEdits.RunText` | web/src/lib/anchors.js:202-291 | the running text after a batch is the text with the edits made |
| `AnchorEdits.FollowReads` | web/src/lib/anchors.js:380-391 | an insertion that an edit leaves listed still reads verbatim at its new offset |
| `AnchorEdits.StepReadable` | web/src/lib/anchors.js:262-286 | one edit keeps the listed insertions readable and pairwise disjoint |
| `AnchorEdits.InsertionsStayReadable` | web/src/lib/anchors.js:262-286 | after any batch every insertion still listed reads verbatim at its recorded offset in the final text, and no two share a character |
| `AnchorInsertions.InsertionsStayListed` | web/src/lib/anchors.js:380-391 | with every character of an insertion marked: as long as its characters stand together after each edit of the batch, phase 2 finds it listed exactly where they are |
| `AnchorIdentity.StepSpan` | web/src/lib/anchors.js:213-284 | the span one edit leaves, in closed form: the offsets before and past the edit and the insertion taken in, attached exactly when part of the span is left |
| `AnchorIdentity.StepTracks` | web/src/lib/anchors.js:213-284 | after one edit the span is exactly the characters tagged as the comment's, and it is attached exactly when one is left |
| `AnchorIdentity.RunTracks` | web/src/lib/anchors.js:202-291 | through every batch the span stays exactly the characters tagged as the comment's |
| `AnchorIdentity.AnchorsFollowCharacters` | web/src/lib/anchors.js:202-291 | after any batch the anchor is attached exactly when a character of the comment is left; its span is those characters; the original characters in it are exactly the survivors of its original span, in order, and no original character from outside is in it |
| `AnchorIdentity.SparedTextStays` | web/src/lib/anchors.js:370-374 | an anchor no edit reaches into keeps its text and is not touched |
| `AnchorWrites.WrittenExactly` | web/src/lib/anchors.js:213-291 | after phase 1 an anchor still attached is to be written exactly when some edit started before its end, one that lost all its text exactly when the change is this session's, and one that was not attached never; a comment is touched exactly when some of its text was deleted; a record not to be written did not change, but for the collapse a remote change leaves to its own session; and what lost its span is detached with a length to bring back, or collapsed where the change is remote |
| `AnchorWrites.ForeignRemembersNothing` | web/src/lib/anchors.js:186-187 | a remote change leaves the memory as it was and puts nothing back, whatever it deletes or inserts |
| `AnchorWrites.EveryChangeIsWritten` | web/src/lib/anchors.js:284-368 | after an operation of this session every comment has the quote it had, whichever file it ended in, and one whose record is not to be written is in its file just as it was |
| `AnchorCompose.EditsFromDelta` | web/src/lib/anchors.js:800-826 | the loop refines the recursive reading of a delta |
| `AnchorCompose.DeltaBecomesEdits` | web/src/lib/anchors.js:800-826 | a delta's edits ascend, never touch, each change something, and make the text the delta makes |
| `AnchorCompose.RunningEdits` | web/src/lib/anchors.js:202-212 | edits in before-coordinates, made in running coordinates, make the text they describe |
| `AnchorCompose.ComposeList` | web/src/lib/anchors.js:862-875 | one list shifted by the net change so far, with its own net change |
| `AnchorCompose.ComposeEdits` | web/src/lib/anchors.js:862-875 | the loop refines the recursive composition |
| `AnchorCompose.ComposedRuns` | web/src/lib/anchors.js:862-875 | the running coordinates of a composed batch are those of the lists one after another |
| `AnchorCompose.CompositionPreservesMeaning` | web/src/lib/anchors.js:862-875 | one batch over the composed lists leaves the text and every anchor's position where running the lists in turn leaves them |
| `AnchorCompose.ComposedDeltas` | web/src/lib/anchors.js:800-875 | successive deltas, each turned into edits and all composed, form a valid batch that makes the text of applying the deltas in turn |
| `AnchorRepin.ApplyPieceKeepsIds` | web/src/lib/anchors.js:308-362 | putting a piece back, in its own file or another, leaves every comment id as often as it was |
| `AnchorRepin.OnePlace` | web/src/lib/anchors.js:308-362 | with unique ids, an id names one anchor in one file |
| `AnchorRepin.ApplyPieceSound` | web/src/lib/anchors.js:313-356 | a piece is put back only where it reads; a rejoin extends its anchor by exactly the piece at the edge it was cut from and changes nothing else of it; a whole piece pins its anchor over exactly the piece, in the file it was put back in, with no fragment, offset or length left and the file it came from noted; either way the record is written and touched |
| `AnchorRepin.ApplyPieceMoves` | web/src/lib/anchors.js:308-362 | every other anchor of every file is left as it was |
| `AnchorRepinRuns.PieceExplained` | web/src/lib/anchors.js:308-362 | after one more piece every anchor is its earlier span grown by exactly the pieces logged for it |
| `AnchorRepinRuns.InsertionSane` | web/src/lib/anchors.js:303-364 | one insertion: each claim is a remembered text found there once, claims are disjoint, every piece put back reads in the final text, and every anchor is its old span grown by the pieces |
| `AnchorRepinRuns.PieceStaysBy` | web/src/lib/anchors.js:318-321 | a piece is put inside its hit's claim, or, exactly if it takes the moved newline, sticks out of it by the one character beside it |
| `AnchorRepinRuns.SaneSpansApart` | web/src/lib/anchors.js:303-364 | in every run two hits of one insertion put pieces on a common character exactly when one piece takes the moved newline and the other is on the character beside its claim |
| `AnchorRepinRuns.PlainPiecesApart` | web/src/lib/anchors.js:303-364 | two pieces of different hits of one insertion, neither taking the moved newline, are on disjoint spans |
| `AnchorRepinRuns.RepinningIsSound` | web/src/lib/anchors.js:303-364 | over every file and insertion: the memory stays sound, every piece put back reads where it was put, claims within one insertion are pairwise disjoint and so are the spans of their pieces but for a moved newline, every attached anchor is a non-empty span that is its old span grown by exactly the pieces put back, and every id is kept as often |
| `AnchorRepinRuns.EntriesLeaveExactly` | web/src/lib/anchors.js:357-361 | in every run a remembered text leaves the memory exactly when a piece of it was put back, and stays for a later insertion otherwise |
| `AnchorRepinRuns.RefusedIsPassedOver` | web/src/lib/anchors.js:308-312 | a hit whose pieces apply nothing claims nothing and shadows nothing: the search goes on to older entries as if it were not there |
| `AnchorPlan.PlanIsSound` | web/src/lib/anchors.js:190-368 | every operation over any files and any sound memory: phase 2 is sound over phase 1, the spans its pieces are put on included, a remembered text is forgotten exactly when a piece of it was put back, and each comment id leaves as often as it came |
| `AnchorPlan.SessionsKeepMemorySound` | web/src/lib/anchors.js:91-165 | over every session of operations and hand attachments the memory holds only pieces that sit at their offset |
| `CutPaste.CutAndPaste` | web/src/lib/anchors.js:220-240 | from an empty memory, one deletion that takes an anchor whole and then one insertion holding the deleted text exactly once leave it attached over exactly its old text at its old relative offset, in any planned file |
| `CutPaste.PasteFinds` | web/src/lib/anchors.js:303-364 | a paste holding one remembered text once pins every anchor waiting in it over exactly its piece |
| `CutPaste.PasteLands` | web/src/lib/anchors.js:303-364 | a paste holding one remembered text once gives its piece to every anchor that is ready for one: pinned over it if it waits for a whole piece, grown by it if it is attached with the piece at its edge |
| `PartialCut.CutRemembersWhen` | web/src/lib/anchors.js:219-258 | one deletion changes the memory exactly when some attached anchor loses an end or all of its text |
| `PartialCut.CutLeavesRest` | web/src/lib/anchors.js:241-258 | what a cut of one end leaves of an anchor: attached, over exactly the rest of its text, with the edge that was cut at the place of the cut |
| `PartialCut.EndComesBack` | web/src/lib/anchors.js:243-254 | from an empty memory, one deletion takes only the head or only the tail of an attached anchor; in any later operation that finds the comment attached, one insertion at the edge that lost it, holding the deleted text exactly once beside the anchor, leaves the comment over what it covered with that end again |
| `PartialCut.PartialCutAndPaste` | web/src/lib/anchors.js:18-20 | the round trip: a deletion that takes only the head or only the tail, then an insertion at the place of the cut holding the deleted text exactly once beside what is left, leave the comment attached over exactly its old text, and at its old offsets of the old text if nothing else was inserted |
| `PartialCut.EndPastedElsewhere` | web/src/lib/anchors.js:322-324 | a paste of the deleted text in another file, or not at the edge that lost it, leaves the attached comment exactly as phase 1 does |
| `Planner.CutOne` | web/src/lib/anchors.js:219-258 | the branches for one attached anchor: taken whole, cut at an end, cut inside or moved, with the piece to remember, which `PartialCut` proves to come back |
| `MovedNewline.MovedNewlineSpills` | web/src/lib/anchors.js:79-86 | an operation, planned whole, in which two hits of one insertion claim [0, 2) and [2, 4) and pin their comments over [0, 2) and [1, 3): the moved newline puts one comment on a character the other covers |
| `DragDrop.DragAndDrop` | web/src/lib/anchors.js:14-20 | one operation that deletes a text and inserts, in any file and on either side, a text holding it exactly once leaves each comment that was in it attached over exactly its old text at its old relative offset |
| `DragDrop.DragBetweenFiles` | web/src/lib/anchors.js:190-368 | the same between two files, whichever is listed first |
| `DragDrop.RememberedLands` | web/src/lib/anchors.js:303-364 | whatever else an operation inserts, in any files, if one of its insertions alone holds the one remembered text, once, every anchor ready for a piece of it takes the piece there |
| `Planner.CutAnchors` | web/src/lib/anchors.js:215-261 | over every anchor of a file: one the deletion covers is let go, any other reads, in the text without the deletion, exactly what the deletion left of it, a partial one has the deletion's place in or at its span, and every piece to remember reads in the deleted text at its offset |
| `Planner.GrowAnchors` | web/src/lib/anchors.js:264-283 | over every anchor of a file: one the deletion overlapped, or that holds the insertion strictly inside, reads its text with the insertion in place, and any other reads what it did |
| `Planner.FollowInserts` | web/src/lib/anchors.js:380-391 | the loop over listed insertions, last first, refines the recursive one |
| `Planner.MakeEdit` | web/src/lib/anchors.js:206-287 | one edit, its deletion, the insertions it moves and its own insertion, is one specified step |
| `Planner.MoveAnchors` | web/src/lib/anchors.js:202-291 | the loop over a file's edits, in running coordinates, refines the specified run and leaves the specified memory |
| `Planner.PutBack` | web/src/lib/anchors.js:313-356 | one held piece: applied exactly when the specification applies it, with the same files after |
| `Planner.PutBackPieces` | web/src/lib/anchors.js:313-356 | the pieces of a hit in turn |
| `Planner.RepinOne` | web/src/lib/anchors.js:303-364 | one insertion, its hits found newest first under a bound that strictly falls |
| `Planner.RepinAll` | web/src/lib/anchors.js:303-364 | every insertion of every file |
| `Planner.PlanOperation` | web/src/lib/anchors.js:190-368 | the two phases leave exactly the planned files and memory whose properties are proved above, the round trips of whole and partial cuts included |
| `Fragments.GapsStayBetween` | web/src/lib/anchors.js:926-949 | as edits run, a gap stays between what was before it and what was after |
| `Fragments.GapsInFinalText` | web/src/lib/anchors.js:926-949 | every computed gap is a valid offset of the final text |
| `Fragments.CollectDeletions` | web/src/lib/anchors.js:926-949 | each deletion comes out with its text and its gap in the final text |
| `Fragments.RunFrom` | web/src/lib/anchors.js:912-925 | the greedy walk finds a run of free fragments from a given one exactly when there is one |
| `Fragments.FirstRun` | web/src/lib/anchors.js:912-925 | the first run in the list that spells the deleted text, or none exactly when there is none |
| `Fragments.MatchFragments` | web/src/lib/anchors.js:953-960 | each fragment goes to at most one deletion, each run spells its deletion, a deletion is left without one only when no free run spells it, and a deletion with a gap of its own, whose fragments sit there, gets fragments that sit there |
| `Fragments.RangesTile` | web/src/lib/anchors.js:961-971 | the ranges of a run partition the deleted text in order, each fragment's text being its slice |
| `Fragments.RangeHolds` | web/src/lib/anchors.js:961-971 | every range given out names a created fragment and holds exactly its text |
| `Fragments.FragmentRangesFor` | web/src/lib/anchors.js:907-972 | every fragment is used by at most one deletion, the ranges of a deletion tile its text, identical texts at different gaps keep their own fragments, and every gap is an offset of the final text |
| `Fragments.DetachedIntoFragment` | web/src/lib/anchors.js:230-240 | with the ranges computed for the batch, an anchor any of its edits takes whole is recorded under a created fragment that holds its text at the recorded offset, for the recorded length |
| `Fragments.RecordedExactly` | web/src/lib/anchors.js:230-240 | an anchor a deletion covers is recorded under a fragment exactly when one range of that deletion holds all of it |
| `AnchorIndex.MergeAllCounts` | web/src/lib/anchors.js:710-746 | merging the planned files into the cache changes each id's count by exactly what the plan gained over its input |
| `AnchorIndex.RecordingConserves` | web/src/lib/anchors.js:1197-1231 | recording any operation leaves every comment id in the cache exactly as often as before, whichever file it ends in, and every cached anchor a span of its file's text |
| `AnchorIndex.CollectOthers` | web/src/lib/anchors.js:1197-1231 | the cached files that were not edited enter the plan with only their detached anchors |
| `AnchorIndex.Index.Record` | web/src/lib/anchors.js:1197-1231 | the cache and the memory after a recorded operation are those of the specification, of which `AnchorCache` proves what becomes of each comment; what is answered is the plan with every record that arrived collapsed written; and it fails exactly when a named file was never loaded |
| `AnchorIndex.Index.TakePlan` | web/src/lib/anchors.js:1218-1229 | every planned file is merged into the cache in turn |
| `AnchorIndex.CollectNamed` | web/src/lib/anchors.js:1198-1207 | the named files enter as they are cached, or the call fails exactly when one was never loaded |
| `AnchorIndex.WriteCollapsed` | web/src/lib/anchors.js:742-744 | exactly the planned anchors whose comment arrived collapsed are marked to be written besides |
| `AnchorCache.RecordedFollows` | web/src/lib/anchors.js:1197-1231 | a cached attached comment of a named file, of which the edits leave some character, is in that file afterwards, attached, with its quote; it covers every character left of it and of what was written into it, and besides those only the remembered pieces put back at its ends |
| `AnchorCache.RecordedStays` | web/src/lib/anchors.js:1197-1231 | one that no edit reaches into, with no remembered piece, is in that file afterwards attached over the same text |
| `AnchorCache.RecordedLetsGo` | web/src/lib/anchors.js:1197-1231 | one of which no character is left is in that file afterwards detached, unless its text came back in the same operation |
| `AnchorCache.RecordedWaits` | web/src/lib/anchors.js:710-719 | a comment of a named file that was not attached stays as it was unless its text came back, and one that arrived collapsed is detached without a span to bring back |
| `AnchorCache.UnnamedStays` | web/src/lib/anchors.js:1209-1229 | a file that is not named keeps its text and every anchor that is not detached, gains none, and loses only detached ones whose text came back elsewhere |
| `AnchorCache.RecordingWrites` | web/src/lib/anchors.js:710-746 | a planned comment of a named file whose record is not to be written is in that file just as it was cached |
| `Diff.CollectRuns` | crates/librepaper-sync/src/diff.rs:36-51 | touching changes become one run |
| `Diff.Offsets` | crates/librepaper-sync/src/diff.rs:71-77 | each entry is the byte length of the lines before it |
| `Diff.EdgesMean` | crates/librepaper-sync/src/diff.rs:81-97 | the common head and tail are common to both texts and never overlap in either |
| `Diff.EdgesAreLongest` | crates/librepaper-sync/src/diff.rs:81-97 | what the common head and tail leave differs in its first and in its last character, unless one side has none left |
| `Diff.MiddlesDiffer` | crates/librepaper-sync/src/diff.rs:81-97 | what trimming leaves is empty on both sides only when the texts are equal |
| `Diff.ApplyIsPatched` | crates/librepaper-sync/src/diff.rs:23-66 | patches that ascend without touching, applied last first, make the text with each range replaced |
| `Diff.AllOnBoundaries` | crates/librepaper-sync/src/diff.rs:52-66 | every patch starts and ends on a character boundary of the base text |
| `Diff.PatchesRoundTrip` | crates/librepaper-sync/src/diff.rs:23-97 | for any valid line script the patches ascend and never touch, each `exact` is the base text in its range, applying them last first gives the new text, and there is none exactly when the texts are equal |
| `Diff.PatchesAreTight` | crates/librepaper-sync/src/diff.rs:52-66 | every patch changes something, and its two texts share neither a first nor a last character |
| `Diff.RunPatches` | crates/librepaper-sync/src/diff.rs:52-66 | the trimmed patch of each run, at its byte offset, and none for a run that changes nothing |
| `Diff.Patches` | crates/librepaper-sync/src/diff.rs:23-66 | the loop builds exactly those patches, each cut down to the characters that differ |
| `Utf8.BytesInjective` | crates/librepaper-sync/src/diff.rs:23-66 | two texts with the same bytes are the same text |
| `LineEnding.NormaliseApply` | crates/librepaper-base/src/text.rs:15-46 | writing an LF text in any ending and normalising it gives the text back |
| `LineEnding.NormalisedHasNoCr` | crates/librepaper-base/src/text.rs:15-46 | a normalised text holds no CR, and an LF text is left as it is |
| `LineEnding.NormaliseUnifies` | crates/librepaper-base/src/text.rs:32-37 | the two replacements make one LF of each line break, however CRLF, lone CR and LF mix |
| `LineEnding.DetectsCharacters` | crates/librepaper-base/src/text.rs:15-46 | searching the bytes for CR, LF and CRLF finds exactly those characters of the text |
| `LineEnding.DetectMeans` | crates/librepaper-base/src/text.rs:15-27 | whatever a file mixes, CRLF is detected exactly if it holds one anywhere, and LF exactly if it holds no CR |
| `LineEnding.DetectApply` | crates/librepaper-base/src/text.rs:15-46 | `detect` recovers the ending a text with a line break was written in |
| `Collected.Collected.Push` | crates/librepaper-base/src/process.rs:97-117 | the buffer still represents the stream with the chunk appended |
| `Collected.Collected.TrimTail` | crates/librepaper-base/src/process.rs:119-124 | what is left is the end of the stream, and a cut is recorded exactly when something was dropped |
| `Collected.Collected.Finish` | crates/librepaper-base/src/process.rs:126-131 | exactly the first or last min(cap, length) bytes, cut exactly when the stream is longer than the cap |
| `Collected.Collect` | crates/librepaper-base/src/process.rs:96-131 | for every chunking of a stream the result is its first or last min(cap, length) bytes, and truncation is reported exactly when the stream is longer than the cap |
| `SyncFiles.PulledTextRescans` | crates/librepaper-sync/src/walk.rs:268-296 | a pulled text, written in whatever ending the file had, rescans to the web's text and hash |
| `SyncFiles.PullKeepsEnding` | crates/librepaper-sync/src/pull.rs:793-803 | a text with a line break keeps its file's ending through a pull |
| `SyncFiles.ExcludedMeans` | crates/librepaper-sync/src/walk.rs:171-180 | a path is excluded exactly when it is an entry, or an entry followed by a slash and anything below it |
| `SyncFiles.NewAndDifferent` | crates/librepaper-sync/src/walk.rs:402-414 | exactly the new and the different paths, each once |
| `SyncFiles.Gone` | crates/librepaper-sync/src/walk.rs:415-424 | exactly the recorded paths that are gone and neither left out nor excluded, each once |
| `SyncFiles.Compare` | crates/librepaper-sync/src/walk.rs:402-424 | exactly the new, the different and the gone paths, each once |
| `Reconcile.Settle` | crates/librepaper-sync/src/pull.rs:633-689 | one path: it joins the list its verdict names, once, and its record becomes the web's or stands |
| `Reconcile.SettleAll` | crates/librepaper-sync/src/pull.rs:633-689 | the loop sorts the paths it met by their verdicts, in any order |
| `Reconcile.Reconcile` | crates/librepaper-sync/src/pull.rs:633-689 | every path is in exactly the list its verdict names, no list holds a path twice, and every record is the web's or the old one as the verdict says |
| `Reconcile.ListsAreExactly` | crates/librepaper-sync/src/pull.rs:633-689 | by how the hashes of folder, record and web differ: applied exactly if not excluded and changed by the web only, or by both and named in `theirs`; kept exactly if changed here only, or by both and named in `mine` alone; a conflict exactly if changed by both and in neither list; skipped exactly if excluded and changed on the web; and the record stands exactly for local changes and conflicts and is the web's otherwise |
| `Reconcile.NeverOverwritesLocalWork` | crates/librepaper-sync/src/pull.rs:633-689 | a path is applied only if the folder still holds the recorded version or the caller named it in `theirs`, and never if it is excluded |
| `Reconcile.BothChangedIsKept` | crates/librepaper-sync/src/pull.rs:633-689 | a path changed on both sides and not settled by the caller is a conflict with its record unchanged; one named in `mine` is kept with the web's record |
| `Reconcile.RecordsAgree` | crates/librepaper-sync/src/pull.rs:633-689 | on every path that is not a conflict the new record hash-equals the web |
| `Reconcile.PullAgrees` | crates/librepaper-sync/src/pull.rs:734-763 | with no conflicts the new records hash-equal the web on every path |
| `Reconcile.SecondPullIsQuiet` | crates/librepaper-sync/src/pull.rs:734-763 | reconciling again after the writes applies and skips nothing, finds no new conflict and leaves the records unchanged |
| `Reconcile.OutcomeIs` | crates/librepaper-sync/src/pull.rs:633-689 | the records and whether there are conflicts are functions of the three sides, whatever the order of the paths |
| `PushPlan.EditsMean` | crates/librepaper-sync/src/push.rs:97-160 | every changed text yields at least one patch, all on its own path and on character boundaries, and together they make the scanned text from the base |
| `PushPlan.HeldIsAccepted` | crates/librepaper-room/src/room/source_change.rs:234-471 | if the project holds the recorded contents at the touched paths, the planned change is admitted |
| `PushPlan.AcceptedWasHeld` | crates/librepaper-room/src/room/source_change.rs:234-471 | if the planned change is admitted, the project held the recorded contents at the touched paths |
| `PushPlan.PushMeansTheFolder` | crates/librepaper-sync/src/push.rs:97-160 | an accepted change makes the project equal the scan on every touched path and changes no other path |
| `PushPlan.PushMirrorsTheFolder` | crates/librepaper-sync/src/push.rs:97-160 | a push from a project that holds what was recorded makes it the folder: every path then holds what the scan found, but for one that is merely left out of the sync, which is not deleted |
| `PushPlan.SettledComparesEmpty` | crates/librepaper-sync/src/push.rs:235-246 | after settlement the same scan compares with nothing new, different or gone |
| `PushPlan.PlanAdded` | crates/librepaper-sync/src/push.rs:97-160 | exactly a create for every added text and an upload for every added asset |
| `PushPlan.PlanChanged` | crates/librepaper-sync/src/push.rs:97-160 | exactly the patches and dependency of every changed text and the upload of every changed asset |
| `PushPlan.PlanOneChange` | crates/librepaper-sync/src/push.rs:97-160 | one changed path adds its patches and dependency, or its upload, and nothing else |
| `PushPlan.EditText` | crates/librepaper-sync/src/push.rs:97-160 | the patches of one changed text, never none |
| `PushPlan.PlanDeleted` | crates/librepaper-sync/src/push.rs:97-160 | exactly a delete for every gone path, and a dependency for every gone text |
| `PushPlan.PlanChange` | crates/librepaper-sync/src/push.rs:97-160 | the plan is exactly the changes, patch lists in their order |
| `SyncState.Store.SettlePending` | crates/librepaper-sync/src/push.rs:222-268 | an acceptance applies exactly the saved effects, keeps at most 200 pushed versions and clears the head; a refusal clears only the attempt; no answer keeps everything; and what was posted was saved first |
| `SyncState.Store.Push` | crates/librepaper-sync/src/push.rs:274-410 | the durable state is the one the answers call for, every post was saved before it went out, and the call ends in an error exactly when another actor's push is pending or a post has no answer |
| `SyncState.Store.Pull` | crates/librepaper-sync/src/pull.rs:691-773 | a pending push stops the pull; a quiet pull changes nothing; otherwise the state is the reconciled one, with head and sequence moved only when there is no conflict |
| `SyncState.Store.WebChanged` | crates/librepaper-sync/src/push.rs:514-547 | answers whether there is something new, and, exactly when a read found nothing new and a head was given, saves the caller's copy of the state with that head, whatever was saved since |
| `PushSafety.StepKeepsPushOk` | crates/librepaper-sync/src/push.rs:222-410 | every step of directory, network, server and checks, unless it saves an old copy of a check, keeps: accepted changes are the settled ones and at most the saved request, which is the open attempt; receipts are for exactly the accepted keys; keys never repeat; a post in flight is the saved one |
| `PushSafety.RunKeepsPushOk` | crates/librepaper-sync/src/push.rs:222-410 | and so does every run in which no check saves an old copy |
| `PushSafety.CheckSavesExactly` | crates/librepaper-sync/src/push.rs:539-545 | saving a check's copy keeps all of this exactly when the copy still has the saved baseline and pending push, which whoever holds the copy can compare |
| `PushSafety.RunIsSafeExactly` | crates/librepaper-sync/src/push.rs:514-547 | a run keeps it all along exactly when no check of it saves an old copy |
| `PushSafety.PushLosesAndInventsNothing` | crates/librepaper-sync/src/push.rs:222-268 | in every run of pushes, lost posts and answers, failed saves, crashes, retries and checks that save no old copy: each change the server accepted is settled or is exactly the saved pending request, an attempt stays saved until its answer is, no key lands twice, and the baseline is the last pull's plus the saved effects of exactly the pushes settled since |
| `PushHistory.StepKeepsHistory` | crates/librepaper-sync/src/push.rs:235-260 | every step that saves no old copy keeps the history: the list of pushes, the commit the directory stands on and the synced paths are those of the settled pushes and pulls |
| `PushHistory.PushesAreRemembered` | crates/librepaper-sync/src/push.rs:235-260 | in every run in which no check saves an old copy, the directory lists the last 200 settled pushes, each with the version the server recorded it as and the commit it was made from; it stands on the commit of the last that had one; and every path a push brought or took away is listed as synced |
| `PushHistory.SyncedGrows` | crates/librepaper-sync/src/push.rs:240-246 | no step, unless it saves an old copy, takes a path off the synced list |
| `PushSafety.StaleCheckLosesAPush` | crates/librepaper-sync/src/push.rs:514-547 | two runs in which a check that loaded the state before a push saves it after: an accepted change is neither settled nor pending, or a settled one is gone from the baseline |
| `PushSafety.ClaimedChecksLoseNothing` | crates/librepaper-companion/src/local/service/connection.rs:69-82 | if checks took the claim that pulls and pushes take, a push would lose and invent nothing in every run |
| `PushSafety.PendingHoldsTheBaseline` | crates/librepaper-sync/src/pull.rs:117-118 | while a push is pending nothing but its own answer moves the baseline, unless a check saves an old copy; it is settled exactly if the server accepted it; a refusal clears the attempt and nothing else |
| `PushSafety.ServerLandsOnce` | crates/librepaper-sync/src/client.rs:359-361 | the project changes only by an edit there or by the pending push, which it had never accepted, and no key is accepted twice |
| `PushSafety.LandingIsTheSavedEffects` | crates/librepaper-sync/src/push.rs:376-397 | when the project makes an accepted plan, the records of what it then holds are the old ones with exactly the effects saved with the request |
| `PushSafety.AcceptMakesTheChange` | crates/librepaper-room/src/room/source_change.rs:625-718 | the protocol's server holds after accepting a push what the project holds after making the change |
| `PushSafety.RetrySettles` | crates/librepaper-sync/src/push.rs:295-304 | a retry whose answer is heard always clears the attempt: a change that had landed is settled by its first receipt without landing again, one that had not is settled or cleared as the server says |
| `PushSafety.SettlingIsARun` | crates/librepaper-sync/src/push.rs:295-304 | what a call of push saves for a pending push is what a run of the protocol saves |
| `PushSafety.SendingIsARun` | crates/librepaper-sync/src/push.rs:376-410 | what a call of push saves for new work is what a run of the protocol saves |
| `QuietPull.PulledPathAgrees` | crates/librepaper-sync/src/pull.rs:734-763 | a path the pull does not leave in conflict is recorded at the web's hash |
| `QuietPull.StepKeepsQuietOk` | crates/librepaper-sync/src/pull.rs:691-773 | every step, of overlapping checks too, keeps: the head in every copy of the state is no newer than the project's, and if they are equal that copy's hashes are the project's on every admitted path that is not excluded |
| `QuietPull.RunKeepsQuietOk` | crates/librepaper-sync/src/pull.rs:691-773 | and so does every run |
| `QuietPull.RecordedHeadIsTrue` | crates/librepaper-sync/src/pull.rs:755-763 | in every interleaving of web edits with pulls, pushes and checks, overlapping ones included, whenever the saved head is the project's head the saved hashes are the project's on every admitted path that is not excluded |
| `QuietPull.QuietPullIsTrue` | crates/librepaper-sync/src/pull.rs:148-153 | in every such run a pull that finds itself quiet is up to date with the project as it stood when the head was read |
| `QuietPull.NextPullIsQuiet` | crates/librepaper-sync/src/pull.rs:755-763 | a pull that meets an unseen version, no base or a new head, and no conflict, brings the directory up to date, and the next one has its answer before it reads the project |
| `QuietPull.ConflictIsMetAgain` | crates/librepaper-sync/src/pull.rs:755-763 | a pull that leaves a conflict records neither the version nor the head, so the same answer makes the next one read the project again |
| `QuietPull.PullTakesOnlyCounted` | crates/librepaper-sync/src/pull.rs:734-763 | a path the rules refuse or that is excluded is neither recorded anew nor written |
| `QuietPull.QuietCheckIsTrue` | crates/librepaper-sync/src/push.rs:514-547 | in every such run a check that meets the head its copy recorded, or finds nothing new while the head it read stands, is right that nothing changed |
| `QuietPull.NextCheckIsCheap` | crates/librepaper-sync/src/push.rs:509-547 | a check that finds the project's admitted files recorded as they are records the head and changes nothing else, and the next one has its answer without reading the project |
| `VersionChain.TipMovesForward` | crates/librepaper-sync/src/chain.rs:109-141 | whatever the base, the parents and an adopted commit, the new tip descends from or is the old tip |
| `VersionChain.TipHoldsOwn` | crates/librepaper-sync/src/chain.rs:109-141 | the new tip descends from the pushed commit exactly when the call does not answer with an unchanged tip that the pushed commit is no ancestor of |
| `VersionChain.RepositorySurvives` | crates/librepaper-sync/src/chain.rs:109-141 | what a version does to every path: one that is excluded, or neither in the version nor known, holds what the pushed commit held if that is no ancestor of the tip, and what the tip held otherwise; a path of the version holds its content, executable exactly if it was there; and a known path the version dropped is gone |
| `VersionChain.PushedIsAdopted` | crates/librepaper-sync/src/chain.rs:109-141 | if the tip is absent or an ancestor of the pushed commit, whose tree already holds the version, the new tip is that commit, exactly unless the call skips because the tip's tree is the same |
| `VersionChain.ParentsAreNewest` | crates/librepaper-sync/src/chain.rs:109-141 | a commit that is made has as parents exactly the newest of the tip and the pushed commit, the tip first, neither an ancestor of the other |
| `VersionChain.VersionBecomesKnown` | crates/librepaper-sync/src/chain.rs:85-150 | known afterwards are exactly the paths known before and, unless the call skips, the version's that are not excluded |
| `VersionChain.SkippedOwnIsLeftBehind` | crates/librepaper-sync/src/chain.rs:127-133 | a concrete call, a skipped version with a pushed commit beside the chain, whose tip does not hold the pushed commit |
| `VersionChain.ChainMovesForward` | crates/librepaper-sync/src/chain.rs:85-150 | over every sequence of versions each later tip descends from or is every earlier one |
| `VersionChain.ChainHoldsEveryPush` | crates/librepaper-sync/src/chain.rs:85-150 | and from every pushed commit it was given, skipping being asked for only where there is none, as at pull.rs:399-443 |
| `VersionChain.DroppedIsGone` | crates/librepaper-sync/src/chain.rs:102-107 | over every sequence of versions, a file some version brought and a later one dropped is not in the later tip |
| `VersionChain.RepositoryFileStays` | crates/librepaper-sync/src/chain.rs:1-8 | over every sequence of versions, a file the project never held is neither lost nor changed: if the first tip and every pushed commit given on the way hold it alike, so does every later tip |
| `VersionChain.SameVersionsSameChain` | crates/librepaper-sync/src/chain.rs:1-8 | the same versions from the same place make the same commits, so fetching twice cannot make two histories |
| `VersionChain.Chain.BlobOf` | crates/librepaper-sync/src/chain.rs:152-179 | the cached or written blob has the file's digest, and the call fails exactly when the content is neither cached nor at hand |
| `VersionChain.Chain.Entries` | crates/librepaper-sync/src/chain.rs:94-101 | a blob of the right digest for every path that is not excluded, or an error exactly when some file's content is neither at hand nor written before it |
| `VersionChain.Chain.Removals` | crates/librepaper-sync/src/chain.rs:102-107 | exactly the known paths the version dropped that are not excluded |
| `VersionChain.Overlay` | crates/librepaper-sync/src/chain.rs:189-233 | every path holds its entry in the mode the base calls for, or nothing if removed, or what the base held |
| `VersionChain.OverlayMeans` | crates/librepaper-sync/src/chain.rs:189-233 | the tree equals the version on its paths that are not excluded, lacks known dropped paths, and equals the base everywhere else, executable modes kept |
| `VersionChain.Chain.Add` | crates/librepaper-sync/src/chain.rs:85-150 | a version moves the chain by one specified move, of which `RepositorySurvives`, `PushedIsAdopted` and `ParentsAreNewest` say what it is; an error moves neither the tip nor the known paths |
| `Highlight.Scan` | web/src/agent/frame.js:255-276 | each node starts where the text of the nodes before it ends |
| `Highlight.NodeAt` | web/src/agent/frame.js:281-290 | the binary search answers the last node that starts no later than the offset, empty nodes included |
| `Highlight.PiecesFor` | web/src/agent/frame.js:295-307 | the pieces lie in the segment, one node after another, and cover every character of it |
| `Highlight.Edges` | web/src/agent/frame.js:367-370 | exactly the boundaries of the non-empty ranges, ascending, each once |
| `Highlight.Opening` | web/src/agent/frame.js:374-378 | exactly the non-empty ranges that start at each offset |
| `Highlight.Advance` | web/src/agent/frame.js:381-384 | the active set after an edge is exactly the ranges that cover it, each once |
| `Highlight.Segment` | web/src/agent/frame.js:385-388 | one segment extends a right plan to its end, and the plan can still be painted from its end |
| `Highlight.Sweep` | web/src/agent/frame.js:367-388 | the plan gives every character exactly the ranges that cover it, or nothing when none does |
| `Highlight.OrderedCanPaint` | web/src/agent/frame.js:390-418 | painting right to left, every piece still finds its offsets in the node it names |
| `Highlight.PaintingKeepsText` | web/src/agent/frame.js:390-418 | painting changes no node's text |
| `Highlight.PaintingFollowsPlan` | web/src/agent/frame.js:390-418 | each character ends in the mark the plan gives it and in no other |
| `Highlight.PaintPlan` | web/src/agent/frame.js:390-418 | the loop, last piece first, refines the specified painting |
| `Highlight.StartsAreOffsets` | web/src/agent/frame.js:255-278 | the table's offsets are offsets into the joined text |
| `Highlight.Restore` | web/src/agent/frame.js:359-365 | taking the marks away gives back each node's text |
| `Highlight.Highlight` | web/src/agent/frame.js:357-418 | for any ranges, any node split and anything painted before: the text is unchanged, and every character is in one mark naming exactly the ranges that cover it, or in none when there is none |
| `FlatText.Flatten` | web/src/lib/anchor.js:46-68 | the loop builds exactly the flattened view and its offsets |
| `FlatText.OffsetsMean` | web/src/lib/anchor.js:46-68 | the map is strictly increasing, and the view shows the flattened unit at each offset it names |
| `FlatText.ViewSplits` | web/src/lib/anchor.js:46-68 | from a unit that is not a space on, the view is the view of the rest |
| `FlatText.FlatIsTrimmedView` | web/src/lib/anchor.js:70-70 | collapsing and trimming a text is its view without the trailing space |
| `FlatText.ViewMapsBack` | web/src/lib/anchor.js:84-91 | a stretch of the view that starts and ends on a word maps back to the text it shows |
| `FlatText.FallbackIsSound` | web/src/lib/anchor.js:77-92 | the span mapped back from a hit, flattened and trimmed, equals the flattened quote |
| `FlatText.FallbackIsComplete` | web/src/lib/anchor.js:77-92 | any passage equal to a non-blank quote up to white space shows the flattened quote in the view |
| `QuoteSearch.CommonPrefix` | web/src/lib/anchor.js:6-10 | the longest common prefix |
| `QuoteSearch.Candidates` | web/src/lib/anchor.js:94-101 | the occurrences in order, overlapping ones included: all of them, or the first 5001 |
| `QuoteSearch.TopScore` | web/src/lib/anchor.js:107-118 | the best score of the candidates, reached by one of them |
| `QuoteSearch.Tied` | web/src/lib/anchor.js:129-132 | exactly the candidates with that score, in order |
| `QuoteSearch.Nearest` | web/src/lib/anchor.js:133-136 | the nearest to the recorded position, the first of equals, and without a position the first |
| `QuoteSearch.Choose` | web/src/lib/anchor.js:103-138 | no candidate is better than the chosen one; nothing is chosen exactly when a unique one is asked for and none scores more than every other |
| `QuoteSearch.Search` | web/src/lib/anchor.js:94-140 | a verbatim occurrence that is the best examined candidate by score, which `QuoteContext` proves to be the context around it, then distance, then order; nothing exactly for an empty quote, one that does not occur, or no winner where one is asked for |
| `QuoteContext.ScoreMeans` | web/src/lib/anchor.js:103-118 | the score of a candidate is at least, and exactly where the texts are not crossed equal to: the largest k, cut at code points, such that the last k units of the prefix stand right before the candidate, one more where the next code points outward are different pairs with one first half, and the longest beginning of the suffix that stands right after it |
| `QuoteContext.CrossedScoresMore` | web/src/lib/anchor.js:12-12 | a concrete text in which none of the context stands around the candidate but the same halves the other way round, and the score is 2 |
| `QuoteContext.WholePairsArePlain` | web/src/lib/anchor.js:12-12 | where every first half of a pair is followed by its second, in the prefix and before the candidate, the texts are not crossed |
| `QuoteContext.ScoreIsContext` | web/src/lib/anchor.js:103-118 | the score is the context around the candidate exactly where they are not crossed, and never less |
| `QuoteContext.SearchFindsContext` | web/src/lib/anchor.js:94-140 | where no candidate is crossed, what a search finds is the examined candidate with the most of the recorded context around it, then the nearest, then the first; and where one must be unique it finds nothing only if each candidate has another with as much |
| `QuoteSearch.Fallback` | web/src/lib/anchor.js:81-92 | the best of the loose matches mapped back; what it finds is the quote up to white space, and unless it must be unique a held quote is found |
| `QuoteSearch.AnchorOne` | web/src/lib/anchor.js:77-92 | the best match as written, or without one the best with white space flattened, by score and then order; what is found is the quote up to white space; and unless it must be unique a non-blank quote is found wherever the text holds it up to white space |

## Left out

- Loro cursors, containers, commits and subscriptions: the anchor records in the document and their resolution are not part of this model; the planner and the cache's bookkeeping are.
- The cache's handling of other people's edits (`#shift`, `attach`, `refresh`), hand attachment beyond its effect on the memory, and the widening of spans to whole surrogate pairs.
- The line diff itself: any script whose operations cover both texts, with equal lines under Equal, stands for it.
- Running git, HTTP, walking the disk, the trash, temporary files, permissions, Unicode normalisation and JSON.
- Repository-mode pulls, merging and branch binding: in a repository the head can be recorded without new files when only an excluded path changed, so the quiet theorem is about plain folders.
- Paging through the history in `discover`, `select` and `plan`: a discovery is any combination of newer versions, missing base, head and sequence.
- Server validation beyond the contents at the touched paths: size limits, path collisions and the limit on files.
- Two pulls or pushes at once in one directory: the claim on a connection excludes them, and the command line is not part of this model.
- Names of files and directories that clash inside a git tree, and the author, date and message of commits.
- The order of the sort by score in the quote search: the best score and the candidates that reach it are computed directly.
- The colour and the click target of a mark, and merging of adjacent text nodes by `normalize`: the node split is arbitrary instead.
- Collected.Collected.Push: does not model overflow of the platform's sizes, because cap + 8192 is unbounded here.
- Roles, sessions, retry delays, slugs, styles and the desktop shell: easy or user interface.
