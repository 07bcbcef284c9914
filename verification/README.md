# oci-packer, verified

A Dafny model of oci-packer: packing files into OCI artifacts, copying artifacts between registries
and local OCI layouts, deleting them from a layout, and extracting them again. Everything is
content-addressed: an index names manifests and indexes by digest, a manifest names a config, layers
and perhaps a subject, and three parts of the system walk that graph.

**A. The bounded, deduplicating transfer** (`internal/parallel/budget.go`, `pkg/registry/copy.go`,
`pusher.go`). `Budget.dfy` is the budget object: slots, claimed keys, first failure. `Transfer.dfy`
is the transfer as a transition system: a frame is one call of the client's transfer function, an
action one atomic step of one frame, and frames run in any interleaving, at any limit, with
operations that may fail and a caller that may cancel. Both clients are runs of it: the copier
claims a key with no slot held and takes slots inside (`KeyThenSlot`), the pack pusher claims inside
a slot (`SlotThenKey`). `TransferInvariant.dfy` holds the inductive invariant; `TransferProgress`,
`TransferWork`, `TransferResults`, `TransferCause`, `TransferLoops` and `TransferSerial` prove
deadlock freedom, work bounds, what runs leave, what they report, when they can hang, and that at a
limit of 1 a copy is the post-order walk. `TransferRoot.dfy` states the work bound and the
post-order for what the root leads to, whatever else the references hold, and that a copy in which
nothing goes wrong succeeds; `TransferPack.dfy` bounds the runs of a pack, `TransferOrder.dfy` says
the order of a sequential copy for each document, and `TransferGroups.dfy` what one failure does to
the calls beside it. `SequentialCopy.dfy` is the copier at a limit of 1 written out, on the budget
object. `Graph.dfy` holds the references they walk.

`Once` goes by the digest and `walk` by the media type a descriptor names (`copy.go:137-172`). The
files above take references by the digest, so each digest is of one kind: the same digest is not
named as a layer here and as a manifest there, and no file of a pack is byte for byte one of its
manifests. What a copy does without that is in three more. `TransferKinds.dfy` gives every call the
kind of media its descriptor names and keeps the digest as the key: such a copy is a run of the
transfer over the references that are followed, those of each digest as what claimed it first, so
that all that is proved of runs and reachable states holds of it over those. `TransferClaims.dfy`
says when a success is the closure and which ways of claiming a copy can end in, `TransferFirst.dfy`
which one it is at a limit of 1.

**B. The OCI layout as a garbage-collected store** (`pkg/registry/oci-layout`, `cmd/copy.go`).
`LayoutStore.dfy` holds blobs, documents, what delete considers reachable and its collector,
`LayoutMet.dfy` what that collector takes in on any store; `Layout.dfy` the layout's operations as a
class over its index and blobs, with the history of every state the disk was in; `Sessions.dfy`
several processes creating one layout, copying into it and deleting from it under its lock, any of
them able to die at any step; `Restore.dfy` what copying, tagging and deleting undo, the copy being
a run of part A, and that the pushes of such a run are steps of a session; `CopiedImage.dfy` what a
copy lands, and in what order, said of the documents themselves. (Of `Graph.dfy` this part otherwise
uses digests and the size of sets.) That every blob an index entry leads to is present is the
layout's rule in the OCI Image Format Specification v1.1, "OCI Image Layout Specification",
subsection "Blobs".

**C. Inverses.** `Strings.dfy`, `Reference.dfy` and `ReferenceGrammar.dfy`: references are read back
as printed, and which texts are references (`pkg/registry/reference`). `Packing.dfy`,
`PackedLayers.dfy`, `RoundTrip.dfy`, `IndexRoundTrip.dfy`: what items come to, and packing,
extracting and packing again (`handlers.go`, `builder.go`, `pkg/extract/extract.go`).
`Building.dfy`: slots filled in any order and documents committed after what they name, files,
directories, downloads and mounted images alike, and what is told when a pack fails (`pack.go`,
`builder.go`, `pusher.go`). `Extraction.dfy`, `Extractor.dfy`, `BuiltIndex.dfy`: which artifacts an
extraction builds, and that a listing agrees with it (`pkg/extract`). A digest is a text here.

`Wrappers.dfy` holds the two result types all of them use.

What the proofs need of the world is stated where it is used. The root leads to no reference loop:
what `fetch`'s digest check gives (`copy.go:308-310`). In part A, outside the three files named for
it, every digest is of one kind. For a delete nothing of the kind is assumed: what it takes and when
that is safe is said for every store, `InOrder` and `OneUse` being sufficient conditions. That a
copy's references agree with the kinds of their digests (`Typed`, `KindsAgree`) is used for
`Sessions.LockKeepsComplete` and for `Restore`; what holds without it is
`Sessions.LockKeepsCompleteIff`. Descriptor sizes are true (`Truthful`). `digest.Parse` accepts what
its grammar says (`Grammar`). A directory walk's order depends on the names only (`Walks`).

## What came out

* The loop check in `walk` is dead code, contrary to its comment (`copy.go:85-99`): `Once` claims
  the digest before `walk` looks at the path, so a frame that closes a loop waits instead
  (`TransferProgress.BackstopNeverFires`). A copy whose root leads to a loop can hang, and only such
  a copy can (`TransferLoops.HangsIffLoop`).
* Where a digest is used both as a layer and as a manifest, `collectBlobs` marks it as a leaf and
  then skips its contents, and a delete then removes blobs another entry needs, lock or no lock
  (`LayoutMet.MixedUseIsMissed`, `Layouts.MixedUseDeleteLoses`, `Sessions.MixedUseLosesUnderLock`).
  The order decides: met as a manifest first, the same digest loses nothing
  (`LayoutMet.MixedInOrder`). On every store the collector takes in what is led to along documents
  met first as what they are (`LayoutMet.CollectIs`), and that is all there is exactly when what the
  mistaken documents refer to is taken on another way (`LayoutMet.CollectIsExactIff`). A delete
  spares the other entries, and is safe to interrupt anywhere, exactly when whatever lies below a
  document mistaken under a survivor, and is taken from the deleted image, is taken from some
  survivor (`Layouts.DeleteSparesIff`, `Layouts.CompleteIff`). With the lock a layout always stays
  complete exactly when every delete and every tag that can come about is of that careful sort
  (`Sessions.LockKeepsCompleteIff`).
* A copy of the same kind of image can leave out what it should bring: at a limit of 1 the example
  always loses a layer and succeeds (`TransferFirst.MixedLosesLayer`), and with more at a time two
  successful copies of it end in different destinations (`TransferFirst.MixedDiffers`). At a limit
  above 1 the successes are exactly the complete ways of claiming that follow no loop
  (`TransferClaims.OutcomesAre`), and a success is the closure exactly when what it took for
  something else refers to nothing more (`TransferClaims.SuccessIsClosureIff`).
* The lock does not cover the creation of a layout: of two copies that both find none, the second
  can write its empty index over the tag of the first, which has ended well
  (`Sessions.CreatorErasesTag`). That is the only way an index write is lost
  (`Sessions.NoWriteIsLostIff`).
* `SetTag` replaces by digest, so a tag it sets resolves to something else exactly when an earlier
  entry already carries the tag (`Layouts.TagResolves`).
* `String` prints `@` before whatever looks like a digest, and `Parse` refuses it if it is none
  (`References.OwnPrintRefused`); that is the only way reading back fails
  (`References.ParseUndoesString`).
* Copying, tagging and deleting gives a layout back only where tag and digest were new to it:
  otherwise the tag has overwritten an entry, or the delete takes out another one
  (`Restore.IndexRestoredIff`). It leaves a copied subject behind
  (`CopiedImages.SubjectStaysBehind`), and takes along what lay there unused
  (`Restore.RunRestoredIff`).
* The comment on `List` that files come in the order of their paths is not what the code does: they
  come in the order of the layers, so a listing ascends if and only if no layer goes to a place
  before that of the layer packed just ahead of it (`Extraction.ListingAscendsIff`); layers titled
  "b" and "a" are listed as "b", "a" (`Extraction.ListedAsPacked`).
* Building, extracting and building again changes the type of an index's member where its file item
  says nothing of a type: the item comes back with the type of the file, where the member had the
  pack's (`IndexRoundTrip.BuildExtractBuild`).
* An item of a pack with a config of its own becomes a member that an extraction takes for an image:
  it comes back as a reference, and none of its files is listed or written
  (`BuiltIndexes.ConfiguredIsMounted`).
* `Parse` never says that a hostname is missing: a text that begins with a slash is a local layout's
  (`ReferenceGrammar.ParseRefusesAs`).
* An `s3://` item passes `Validate` and is then refused by every build
  (`PackedLayers.ItemIsBySource`).
* The type, platform and annotations of a `dir://` item are not used in the layers packed from it
  (`Packing.DirItemSaysNothing`).

## Model

| member | source | states |
|---|---|---|
| Budgets.Budget.constructor | internal/parallel/budget.go:67-77 | a new budget allows as many as were asked for, or one where none were; no slot in use, nothing claimed, no failure |
| Budgets.Budget.Enter | internal/parallel/budget.go:117-128 | a cancellation seen first wins over a free slot and leaves the slots as they were; otherwise, whatever the other callers give back and take meanwhile, it takes one slot more, never above the limit, or none and a context error |
| Budgets.Budget.Leave | internal/parallel/budget.go:129-131 | exactly one slot is given back |
| Budgets.Budget.Claim | internal/parallel/budget.go:153-169 | the first caller for a key claims it and every later one finds it claimed |
| Budgets.Budget.Complete | internal/parallel/budget.go:172-179 | the claimed work's result is recorded and then published to the waiters |
| Budgets.Budget.Record | internal/parallel/budget.go:188-200 | only the first genuine failure is kept; context errors are passed over |
| Budgets.Budget.Cause | internal/parallel/budget.go:204-216 | what is reported is the recorded failure if there is one; a success stays a success |
| TransferInvariant.ReachableInv | internal/parallel/budget.go:93-180 | in every reachable state of either client the call tree, the task table, the destination and the slots fit together |
| TransferInvariant.InvStep | pkg/registry/copy.go:134-213 | every atomic step of any frame, failures and cancellation included, keeps that invariant |
| TransferProgress.NeverStuck | pkg/registry/copy.go:122-143 | deadlock freedom: in any reachable unfinished state some frame can step, for both clients, every limit, every interleaving, over references that lower a rank |
| TransferProgress.SlotLimit | internal/parallel/budget.go:117-132 | in any reachable state no more operations go on, and no more slots are held, than were asked for, or one where none were |
| TransferGroups.CancelledIffFailed | internal/parallel/budget.go:93-109 | in every reachable state a group's context is cancelled if and only if its calls run side by side and one of them has come back with an error |
| TransferGroups.FailedGroupStops | internal/parallel/budget.go:117-128 | from then on no call below it, at any depth, passes Slot's look at the context, a copy that is entered turns back, and whoever waits can leave |
| TransferGroups.CallerStops | pkg/registry/copy.go:134-143 | and the caller's cancellation does that to every call |
| TransferGroups.FirstErrorIsKept | internal/parallel/budget.go:103-108 | what a group fails with is the error of the first of its calls to come back with one, to the end of every run |
| TransferGroups.FailureIsReturned | pusher.go:211-255 | a call whose own operation fails, in a copy or a pack, carries what the operation returned from then on, to the end of every run |
| TransferGroups.AnyFailureEnds | pkg/registry/copy.go:207-213 | and every failure an endpoint can come back with does end some copy, as what it returns and what is on record |
| TransferGroups.CancelledBeforeStart | pkg/registry/copy.go:134-140 | a copy whose caller has cancelled before the start can end with just that, nothing copied and no failure on record |
| TransferProgress.WaitersAreSafe | internal/parallel/budget.go:134-152 | a waiting copier holds no slot; a waiting packer's claimer already holds one |
| TransferProgress.BackstopNeverFires | pkg/registry/copy.go:141-148 | over any graph, a frame whose digest is already being walked above it waits: the loop check in walk is never reached |
| TransferProgress.PathIsClaimed | pkg/registry/copy.go:101-112 | every digest on the path above a frame has been claimed |
| TransferRoot.LinearWork | pkg/registry/copy.go:122-142 | every run of a copy is finite: at most 17 steps and one call for each reference below the root plus the root, however many routes lead to a digest and whatever loops there are |
| TransferPack.PackWork | pusher.go:52-188 | every run of a pack is finite: at most 13 steps for each call its items and manifests come to |
| TransferWork.StepCost | pkg/registry/copy.go:201-205 | every step is paid for out of that budget, whatever it is |
| TransferWork.AtMostTwicePerDigest | internal/parallel/budget.go:153-180 | each digest is read and pushed at most once under its key, so at most two operations per claimed digest; no digest is pushed twice |
| TransferResults.ChildrenFirst | pkg/registry/copy.go:52-54 | for references by digest, each digest of one kind: in every reachable state of every run, failed and cancelled ones included, all a pushed digest reaches was pushed before it and is in the destination |
| TransferResults.LogExtends | pkg/registry/copy.go:144-175 | the push order is a linear extension of the reference order |
| TransferResults.OnlyClosureAdded | pkg/registry/copy.go:207-213 | a run adds nothing outside the root's closure |
| TransferResults.SuccessIsClosure | pkg/registry/copy.go:134-175 | for digests of one kind each: a successful run leaves the old content plus exactly the closure of the root |
| TransferResults.ScheduleIndependent | internal/parallel/budget.go:93-109 | for digests of one kind each: any two successful runs, at any limits and under any interleavings, push the same blobs and end in the same destination |
| TransferKinds.RunsAsClaimed | pkg/registry/copy.go:134-175 | whatever kinds the descriptors name for a digest, a run of a copy is one over the references that are followed: those of each digest as what it was claimed as |
| TransferKinds.ChildrenFirstAsClaimed | pkg/registry/copy.go:52-54 | whatever the kinds, in every reachable state all that a pushed digest, as what it was claimed as, refers to was pushed before it |
| TransferKinds.SuccessIsComplete | pkg/registry/copy.go:134-175 | a successful copy has claimed the root as it is, all that the claimed refer to and nothing else, and leaves the old content plus exactly what it claimed |
| TransferClaims.SuccessIsClosureIff | pkg/registry/copy.go:134-175 | on every input a successful copy has brought exactly the closure of its root if and only if no document it claimed as something else refers to anything it did not claim |
| TransferClaims.OneKindIsClosure | pkg/registry/copy.go:67-83 | where no digest below the root is named as two kinds, it brings exactly the closure, at any limit |
| TransferClaims.OneKindAgrees | internal/parallel/budget.go:153-169 | and any two successful copies end in the same destination |
| TransferClaims.OutcomesAre | internal/parallel/budget.go:153-169 | with two transfers at a time or more, what a copy can succeed in is exactly any complete way of claiming along which no loop is followed |
| TransferClaims.AlwaysClosureIff | pkg/registry/copy.go:134-175 | so all successful copies bring the whole closure if and only if every such way of claiming does |
| TransferClaims.HangsIff | pkg/registry/copy.go:129-133 | and a copy can hang if and only if some complete way of claiming follows a loop |
| TransferFirst.ClaimsFirstMet | pkg/registry/copy.go:185-205 | at a limit of 1 every successful copy claims each digest as what the sequential walk comes across it as first |
| TransferFirst.OutcomeAtOne | pkg/registry/copy.go:185-205 | at a limit of 1 a copy can succeed exactly when the walk's claims follow no loop, and then leaves the old content plus what the walk claims |
| TransferFirst.ClosureAtOneIff | pkg/registry/copy.go:185-205 | and it brings exactly the closure if and only if the walk's claims take in all of it |
| TransferFirst.MixedLosesLayer | pkg/registry/copy.go:137-172 | an image whose second manifest is also a layer of the first: at a limit of 1 every successful copy leaves out that manifest's layer, and some copy succeeds |
| TransferFirst.MixedDiffers | pkg/registry/copy.go:137-172 | with two transfers at a time successful copies of it end in different destinations |
| TransferResults.AttemptLeavesLeftover | pkg/registry/copy.go:65-66 | however a run ends, what it leaves is the old content and part of the closure, and so after further attempts |
| TransferResults.RerunResumes | pkg/registry/copy.go:65-66 | whatever attempts left, a run that succeeds on it ends where one clean run ends |
| TransferRoot.FaultlessSucceeds | pkg/registry/copy.go:134-175 | a copy in which no operation fails and nobody cancels has succeeded when no frame can step any more, if its root leads to no loop |
| TransferRoot.FaultlessEnds | pkg/registry/copy.go:134-175 | and every faultless run, wherever it has got to, has a faultless continuation that succeeds |
| TransferRoot.RerunEndsClean | pkg/registry/copy.go:65-66 | a rerun in which nothing goes wrong, on whatever any failed or interrupted attempts left, succeeds and ends where one clean run ends |
| TransferCause.NoCancellationWithoutFailure | internal/parallel/budget.go:93-109 | if neither caller nor endpoints bring in context errors, no group is cancelled and no context error exists while no failure is recorded |
| TransferCause.RaisedByOperation | pkg/registry/copy.go:246-267 | every failure going round was returned by some endpoint operation of the run |
| TransferCause.ReportsFirstFailure | pkg/registry/copy.go:78-82 | then what a failed run reports is a genuine failure of one of its operations, and the first recorded |
| TransferLoops.HangsIffLoop | pkg/registry/copy.go:129-133 | for digests of one kind each: some run of a copy hangs if and only if its root leads to a reference loop |
| TransferLoops.LoopHangs | internal/parallel/budget.go:150-152 | over a loop some run in which nothing fails and nobody cancels comes to a state in which no frame can step, at any limit |
| TransferLoops.SuccessIsLoopFree | pkg/registry/copy.go:129-133 | a copy that succeeded had a root that leads to no loop |
| TransferRoot.SerialIsPostOrder | pkg/registry/copy.go:185-205 | at a limit of 1 every successful copy pushes in exactly first-visit post-order of the references; loops the root does not lead to do not matter |
| TransferOrder.SerialStretches | pkg/registry/copy.go:144-175 | that is, for every document it pushed: one stretch of the log after another, for what it references in order, each empty where that was pushed before and otherwise ending in it and holding only what it leads to; and then the document |
| CopiedImages.LandsAllNamed | pkg/registry/copy.go:144-197 | a successful copy has landed an index's members, a manifest's config and layers, and its subject, for every document it landed |
| CopiedImages.LandsOnlyNamed | pkg/registry/copy.go:144-197 | and nothing but the root that no document it landed names |
| CopiedImages.LandsInOrder | pkg/registry/copy.go:188-197 | at a limit of 1 the stretches before a manifest are those of its config, its layers in order, and its subject |
| CopiedImages.SubjectLands | pkg/registry/copy.go:188-197 | a copy of an image with a subject can succeed at any limit and always lands the subject with all it names |
| CopiedImages.SubjectStaysBehind | pkg/registry/oci-layout/delete.go:159-188 | copied into an empty layout, tagged and deleted again it leaves its subject and the subject's layer behind, with nothing in the index |
| TransferRoot.ParallelAgreesWithWalk | pkg/registry/copy.go:45-50 | a successful copy at any limit lands exactly what that sequential walk pushes |
| SequentialCopy.Copier.Copy | pkg/registry/copy.go:134-142 | on success the push log has grown by the walk of what was missing, on failure by a proper beginning of it, on cancellation at any time by some beginning of it; the first failure is recorded |
| SequentialCopy.Copier.Walk | pkg/registry/copy.go:145-175 | everything a document references is pushed before it, and nothing is left open; after a failure or a cancellation a proper beginning of that has been pushed |
| SequentialCopy.Copier.CopyAll | internal/parallel/budget.go:93-101 | the siblings in order, stopping at the first failure |
| SequentialCopy.Copier.Run | pkg/registry/copy.go:67-83 | success means the whole walk was pushed, failure a proper beginning of it, cancellation some beginning; the report is what some operation returned or the caller's cancellation, and a caller that cancelled before the start is told just that |
| LayoutMet.CollectIs | pkg/registry/oci-layout/delete.go:148-188 | on every store, cyclic or not, what referencedBlobs returns is exactly what its descriptor leads to along documents that were met first as what they are referred to as |
| LayoutMet.CollectFailsIff | pkg/registry/oci-layout/delete.go:159-188 | and it fails exactly when one of the documents it looks into cannot be read |
| LayoutMet.CollectIsExactIff | pkg/registry/oci-layout/delete.go:159-188 | on every store what it returns is reachable, and is all that is if and only if everything the documents met as something else refer to is led to along others |
| LayoutMet.OneUseIsInOrder | pkg/registry/oci-layout/delete.go:177-186 | where no digest is used in two ways no document is first met as something else |
| LayoutStore.Collect | pkg/registry/oci-layout/delete.go:159-188 | it ends on any finite store, unseen digests being the measure, and never loses what was seen |
| LayoutMet.MixedUseIsMissed | pkg/registry/oci-layout/delete.go:177-186 | with a digest used as layer and as manifest a reachable blob is missed |
| LayoutMet.MixedInOrder | pkg/registry/oci-layout/delete.go:177-186 | with a digest used as manifest and then as layer nothing is missed |
| Layouts.Layout.CollectBlobs | pkg/registry/oci-layout/delete.go:159-188 | filling the seen map in place gives what the recursive definition gives |
| Layouts.Layout.ReferencedByAll | pkg/registry/oci-layout/delete.go:88-97 | keep is the union over all survivors, or a failure if any of them fails |
| Layouts.Layout.Resolve | pkg/registry/oci-layout/layout.go:194-209 | the first entry that carries the tag, if any does |
| Layouts.Layout.WriteBlob | pkg/registry/oci-layout/layout.go:382-419 | a blob is stored only whole and hashing to its name; what breaks off is taken away again |
| Layouts.Layout.UnpackLayer | pkg/registry/oci-layout/layout.go:323-360 | a layer directory is left only by a complete extraction: one that breaks off takes it away again, and a layer whose decompressor does not open leaves everything as it was |
| Layouts.Layout.Push | pkg/registry/oci-layout/layout.go:290-319 | whatever happens every stored file still hashes to its name and other blobs are untouched; with true sizes a failed push leaves the blobs as they were; in tar mode a push succeeds exactly on the right bytes |
| Layouts.Layout.TruthfulExists | pkg/registry/oci-layout/layout.go:220-233 | with true sizes, exists is presence |
| Layouts.Layout.SetTag | pkg/registry/oci-layout/layout.go:421-448 | the entry stands at the first place of its digest, or at the end of the index where the digest is new; every other entry is where it was; a failed write changes nothing |
| Layouts.TagResolves | pkg/registry/oci-layout/layout.go:434-445 | a tag just set resolves to its image if and only if no earlier entry carries the tag |
| Layouts.RetagKeepsTag | pkg/registry/oci-layout/layout.go:434-445 | a tag of another image still stands for it, unless that is the tag being set |
| Layouts.TakeOutKeepsTag | pkg/registry/oci-layout/delete.go:81-97 | after a delete every other tag stands for what it did |
| Layouts.TagKeepsComplete | pkg/registry/oci-layout/layout.go:421-448 | tagging a complete image keeps every entry's blobs present |
| Layouts.Layout.Delete | pkg/registry/oci-layout/delete.go:41-146 | it succeeds exactly when the tag exists, all is readable, no orphan is mounted and the index can be written; then the first entry with the tag is gone, all others are there in their order, and the orphans that could be removed are gone; an abort changes nothing; every state on the way lies between |
| Layouts.Layout.RemoveOrphans | pkg/registry/oci-layout/delete.go:132-138 | a blob that cannot be removed is passed over, all others go |
| Layouts.OrphansAre | pkg/registry/oci-layout/delete.go:99-106 | on every store the orphans are exactly what the collector takes in from the victim and from no survivor |
| Layouts.DeleteSparesIff | pkg/registry/oci-layout/delete.go:88-106 | on every store no orphan is reachable from a survivor if and only if whatever lies below a document mistaken under a survivor, and is taken from the victim, is taken from some survivor |
| Layouts.CompleteIff | pkg/registry/oci-layout/delete.go:124-138 | crash consistency: of a complete layout every state a delete can stop in is complete if and only if no survivor needs an orphan |
| Layouts.SurvivorsUntouched | pkg/registry/oci-layout/delete.go:81-97 | and then at every such point a surviving entry reaches exactly what it reached before |
| Layouts.MixedUseDeleteLoses | pkg/registry/oci-layout/delete.go:99-138 | a complete layout with a digest used in two ways: a delete's orphans include a blob a survivor needs |
| Sessions.LockKeepsCompleteIff | cmd/copy.go:103-124 | on any content, every state that any interleaving of copies, creations and deletes by several processes under the lock, each able to die at any step, can reach has every index entry's blobs present if and only if no delete can come to take what a survivor needs and no copy to tag an image that is not intact |
| Sessions.LockKeepsComplete | cmd/copy.go:103-124 | where every digest is used in one way, every such state is complete |
| Sessions.MixedUseLosesUnderLock | pkg/registry/oci-layout/delete.go:99-138 | a complete, quiet layout with a digest used in two ways loses a blob to one delete under the lock |
| Sessions.QuietStart | pkg/registry/oci-layout/lock.go:40-51 | a complete layout nobody works on satisfies the invariant those runs keep |
| Sessions.NoWriteIsLostIff | pkg/registry/oci-layout/lock.go:24-33 | under the lock every index write sets one tag in the index as it then is, or takes the one entry it was asked for out of it, and leaves every other entry, unless a process creating the layout writes its empty index over another one |
| Sessions.SettledLosesNoWrite | cmd/copy.go:103-106 | so in a layout that exists, with nobody still creating it, no index write is ever lost |
| Sessions.OnceMade | pkg/registry/oci-layout/layout.go:76-95 | whoever does anything with a layout has found it there or made it; once it is there it stays, and only those who had looked before can still take it for new |
| Sessions.TagOutlives | cmd/copy.go:103-106 | then a tag nobody sets or deletes, on an image nobody tags anew, stands for the same image through the whole run |
| Sessions.NoLockIsLeft | pkg/registry/oci-layout/lock.go:40-51 | from a layout nobody holds, in every state any processes can reach, ending well, in failure or by dying, whoever holds the lock is inside its session |
| Sessions.NextGetsIn | cmd/copy.go:107-113 | the step that ends the holder's session, its death included, lets anybody in who waits |
| Sessions.DeathFreesLock | pkg/registry/oci-layout/lock.go:44-48 | a holder can die whatever it is doing; it leaves the disk as it is then, and the lock to whoever waits |
| Sessions.LockCanBeHad | pkg/registry/oci-layout/lock.go:35-51 | so in every such state whoever waits for the lock can still get it, and nobody has to die for it |
| Sessions.CreatorErasesTag | pkg/registry/oci-layout/layout.go:76-85 | two copies find no layout; the first has tagged its image and ended when the second writes its empty index and the tag is gone |
| Sessions.MidDeleteComesAbout | pkg/registry/oci-layout/delete.go:41-131 | from a layout nobody works on a delete lawfully comes to where its entry is out of the index and its blobs are about to be removed, while a copy waits |
| Sessions.UnlockedLosesLayer | pkg/registry/oci-layout/delete.go:42-46 | without the lock a run from that quiet layout has a delete pull a shared layer out from under a copy that found it present |
| Sessions.LockedStartIsSafe | pkg/registry/oci-layout/lock.go:24-33 | from the same layout no run under the lock loses a blob or an index write |
| Restore.IndexRestoredIff | pkg/registry/oci-layout/layout.go:421-448 | tagging an image and deleting it by that tag gives the index back if and only if neither its tag nor its digest was in it |
| Restore.RestoredIff | pkg/registry/oci-layout/delete.go:75-138 | copy, tag, delete restores index and blobs if and only if tag and digest were new, delete reaches all the copy added, and no blob of the image lay there unused |
| Restore.RunIsCopiedAndTagged | pkg/registry/copy.go:67-83 | what a successful run of the copy leaves, at any limit and under any interleaving, once tagged, is what those theorems call copied and tagged |
| Restore.LogLands | pkg/registry/copy.go:207-213 | the pushes of any attempt, in their order, are steps a copying process can take in a session: every blob after all it refers to |
| Restore.RunRestoredIff | cmd/copy.go:103-124 | so a successful run, the tag and a delete restore the layout if and only if tag and digest were new, delete reaches all the run added, and no blob of the image lay there unused |
| Restore.PlainImageRestoredIff | pkg/registry/copy.go:188-197 | for an image without subject and with leaf configs and layers: if and only if tag and digest were new and no blob of it was there unused |
| References.ReadPort | pkg/registry/reference/parse.go:172-182 | true exactly of a non-empty run of digits |
| References.Fill | pkg/registry/reference/parse.go:209-260 | reading field by field gives what the definition by cases gives, errors included |
| References.FillName | pkg/registry/reference/parse.go:229-259 | the same for what follows the host |
| References.FillFile | pkg/registry/reference/parse.go:238-247 | the file is cut off at the first colon that is not a digest's own |
| References.ParseUndoesString | pkg/registry/reference/reference.go:44-68 | for every text Parse accepts, in either form, printing the result and parsing again gives it back if and only if a Ref that looks like a digest is one |
| References.OwnPrintRefused | pkg/registry/reference/parse.go:291-293 | a tag that only looks like a digest is printed as one and then refused |
| References.ParsedIsRegistryRef | pkg/registry/reference/parse.go:37-49 | a parsed reference with a host prints as it reads, unless its tag only looks like a digest |
| References.FileUndone | pkg/registry/reference/parse.go:63-89 | naming a file of a registry reference reads back to the reference and the path if and only if the tag has no colon (or is a digest) and the path is clean, relative and without ".." |
| References.ParseFileReturns | pkg/registry/reference/parse.go:84-88 | every result is such a reference and such a path, and reads back as itself |
| References.ItemUndone | pkg/registry/reference/parse.go:98-119 | an item written for a repository and a digest reads back if and only if the repository is one and its first segment cannot be taken for a host or a path |
| References.RepositoryNamesItem | pkg/extract/extract.go:340-344 | for the repository of a parsed registry reference: if and only if its first segment is bare |
| References.HostIsRegistry | pkg/registry/reference/parse.go:138-165 | what stands before a slash names a registry if and only if it is a name, a colon and digits, or has a dot in it and no colon, or is localhost, and does not begin with a dot or a tilde |
| ReferenceGrammar.ParseIs | pkg/registry/reference/parse.go:37-49 | Parse returns a reference if and only if the text spells it: the scheme, a host and a slash exactly when the text begins with what names a registry, a repository, and a tag, a digest or nothing, with no empty part |
| ReferenceGrammar.ParseRefusesAs | pkg/registry/reference/parse.go:172-195 | and any other text is refused for lacking a scheme, for another scheme, or as invalid, as the text alone decides |
| ReferenceGrammar.ParseFileIs | pkg/registry/reference/parse.go:63-89 | ParseFile returns a reference and a path if and only if the text spells a registry's reference with a colon-free tag or a digest, and after one more colon a path that cleans to this one inside the artifact |
| ReferenceGrammar.ParseItemIs | pkg/registry/reference/parse.go:98-119 | ParseItem returns an item if and only if the text spells a repository that cannot be taken for a host or a local path, and a tag, a digest or nothing |
| Strings.CleanIsInside | pkg/registry/reference/parse.go:84-87 | a cleaned path that is not "." and does not climb consists of names only, and such a path is clean |
| Strings.CleanLeadsThere | pkg/registry/reference/parse.go:84-87 | from anywhere, a cleaned path leads where the path does |
| Packing.MediaOfBase | utils.go:30-54 | a file's media type is that of its name, wherever the file lies |
| PackedLayers.MediaTypeIs | utils.go:30-54 | it is decided by the endings .tar.gz and .tar.zst, then by the extension .tar or .tgz, then by what the machine knows of the extension, up to a semicolon, and is otherwise plain bytes |
| PackedLayers.FileItemIs | handlers.go:38-81 | a file:// item packs exactly when its path is a file's, as one layer: its bytes under its media type, of the item's type or else that media type, with the item's annotations and its last path element for a title |
| PackedLayers.DirItemIsAll | handlers.go:83-138 | a dir:// item with a clean name packs exactly when it is a directory: a layer for every file below it and no other, titled with the path below, marked with the directory, with no type |
| PackedLayers.ItemIsBySource | builder.go:217-244 | a download is one layer of the item's type and annotations, an image is a reference to mount, an s3 item is refused although it passed validation |
| PackedLayers.UntitledPlace | pkg/extract/extract.go:324-338 | a layer without a title goes to the first twelve digits of its digest |
| PackedLayers.TitledPlace | pkg/extract/extract.go:325-338 | a titled layer goes to its title, or below the directory it was packed from, unless that leads out of the artifact's directory |
| PackedLayers.FilesWrittenBack | pkg/extract/extract.go:317-321 | layers that are no directory's come back as a file:// item each, in order, with their type and platform and all annotations but the four the packer makes use of |
| PackedLayers.DirWrittenBack | pkg/extract/extract.go:310-316 | layers of one directory come back as one dir:// item |
| Packing.DirItemSaysNothing | handlers.go:83-138 | two `dir://` items of the same directory come to the same layers, whatever else they say |
| RoundTrip.PackExtractPack | pkg/extract/extract.go:291-322 | for file and directory items without reserved annotations and with clean relative, unnested directory names, packing what was extracted gives the very same layers if and only if there are any, files that meet in one place hold the same bytes, and none takes the pack file's place |
| RoundTrip.Repacked | handlers.go:38-138 | what is packed again is always the same layers over what is on disk now |
| RoundTrip.ExtractSucceeds | pkg/extract/extract.go:324-338 | extraction into an empty directory succeeds exactly when every layer's path stays inside and no file lies where another needs a directory |
| RoundTrip.ExtractLeaves | pkg/extract/extract.go:294-322 | it leaves exactly the layers' files and the pack file |
| RoundTrip.OneDirItem | pkg/extract/extract.go:310-316 | all layers of one directory come back as one item, where the first stood |
| RoundTrip.ItemRepacked | pkg/extract/extract.go:294-322 | one item's layers come back as that item, or as none when there are none |
| RoundTrip.LayerPlace | pkg/extract/extract.go:325-338 | a layer goes to its own name, or to where its file was below its directory |
| IndexRoundTrip.BuildExtractBuild | pkg/extract/extract.go:252-283 | for an index of file and directory items, with types and platforms, building what was extracted gives the very same members (order, type, platform, layers) if and only if every item had files, files that meet in one place hold the same bytes, none takes the pack file's place, and every file item that says nothing of its type is of the pack's own type |
| IndexRoundTrip.MemberIsMade | builder.go:126-156 | those members are what Build lists for such items |
| IndexRoundTrip.BackIsWrittenBack | pkg/extract/extract.go:269-283 | and their items are what an extraction writes back |
| Building.HandleFile | handlers.go:38-81 | one layer, titled with the file's own name, typed by the item or else by that name |
| Building.HandleDir | handlers.go:83-138 | one layer for every file the walk visits, in its order, titled with the path below the directory and marked with it |
| Building.HandleItem | builder.go:217-258 | the item's scheme picks its handler: one layer for a file or a download, the walk's layers for a directory, a reference for an image to mount; anything else is refused |
| Building.EachItem | builder.go:189-215 | every item fills its own slot in any order of completion; the failure returned is that of the item which failed first |
| Building.MakeManifest | builder.go:158-183 | for every order of completion the layers are those of the items one after the other, in the pack file's order; it fails exactly when some item does, with the error of the one that failed first |
| Building.LayersAreFlattened | builder.go:165-177 | for files and directories the slots flattened are the layers of a pack as `Packing.Layers` defines them |
| Building.Destination.Upload | pusher.go:267-276 | success means the blob is in the destination, stored now or there already; only a refusal is a failure and is filed as one |
| Building.Destination.Record | internal/parallel/budget.go:188-200 | of all the failures of a pack the first is the one kept |
| Building.Destination.Mount | pusher.go:190-212 | a mounted image is the one its item names and comes with all it refers to; a failure mounts nothing |
| Building.Destination.PushManifest | pusher.go:116-188 | the manifest lists its config (the empty one by default) and layers as given and is committed only when all of them are there; otherwise only blobs were added, and all that is filed is refusals and the config's own fault |
| Building.Destination.PushMember | pusher.go:65-96 | a member is the manifest built for its item or the image mounted for it, present in the destination, with the item's platform |
| Building.Destination.PushIndex | pusher.go:52-96 | the index lists its members in item order, built and mounted ones, and is committed only when every member is there; otherwise something is filed, a refusal or some member's own fault |
| Building.MakeIndex | builder.go:126-156 | for every order of completion the members are those of the items, in the pack file's order, each with the item's config, platform and its type or else the pack's; it fails exactly when some item does |
| Building.ConfigLayerIs | pusher.go:278-299 | the config pushed is the empty one, or the named file's bytes under the type of its name, with what the pack file says of it; it fails exactly where there is no such file |
| Building.Validate | pack.go:75-140 | a pack file passes exactly when it has items, its repository and its mounted items can be read as items of a registry, and every source, of items and configs, is of a known kind |
| Building.Accept | builder.go:67-90 | and Build goes on exactly when besides an index has no config of its own and a mounted image none either; an index it is as soon as one item is mounted or placed on a platform |
| PackedLayers.AcceptedIff | pack.go:75-158 | in the terms of its author: it has items, its repository and its oci:// items read as items, every source, of items and configs, starts with one of the seven schemes, and no config goes to a mounted image, or to the whole once an item is mounted or placed on a platform |
| Building.Build | builder.go:63-124 | a pack ends in one manifest of all its layers and its config, or in an index with a member for every item, in the pack file's order, each with its config, type and platform, or in nothing half-named; what is not accepted, and an item that does not resolve, leaves the destination as it was; the error told is that of the item that failed first, or else of what failed first in pushing: a refusal, a config that is no file, a platform that does not parse, and never a name, which was checked before |
| Extraction.ListingAscendsIff | pkg/extract/file.go:48-98 | a listing is the paths of the artifact's own layers in their order; it ascends if and only if no layer goes to a place before that of the layer just ahead of it |
| Extraction.ListedAsPacked | pkg/extract/file.go:48-98 | layers titled "b" and "a" are listed as "b", "a" |
| BuiltIndexes.ListsWhatWasBuilt | pkg/extract/extract.go:189-218 | for an index of any known members: a listing is the layers of the manifests with no config of their own that do not name themselves, at their places and in member order, and nothing of what is mounted: images, images for several platforms with their attestations, manifests that name themselves, other indexes; it fails exactly when one of those layers may not be extracted |
| BuiltIndexes.WritesBackItems | pkg/extract/extract.go:252-283 | an extraction writes back the items of those manifests, typed and placed as the member where they say nothing, and one oci:// item for each mounted member; the artifacts mounted are those that name themselves and the indexes that are no images |
| BuiltIndexes.ListsThePack | pkg/extract/file.go:48-98 | so for an index built from a pack of files, directories and mounted images, none with a config: the layers of the pack's items in the pack file's order, at the places a manifest of them has them |
| BuiltIndexes.ConfiguredIsMounted | pkg/extract/extract.go:200-214 | a member built with a config of its own is taken for an image, unless that config is the empty one |
| BuiltIndexes.MountedItemReads | pkg/extract/extract.go:340-344 | the oci:// item of a mounted member reads back as its repository and digest if and only if an item can name the repository |
| Extractors.Extract | pkg/extract/extract.go:51-63 | it ends on any finite store, loops included; on success it has built exactly the artifacts mounted into one another from the root, each once and as what it was first taken for, each one's pack file put with the items that name it, and the files written for each are those a listing shows, in order; the root's all lie in the directory it returns, named by the root, or after the repository, or by its digest, with their layers' bytes and its config beside them |
| Extractors.LandedBytes | pkg/extract/extract.go:300-308 | a listed file holds its layer's bytes, unless something else was put in its very place |
| Extractors.Extractor.Artifact | pkg/extract/extract.go:74-144 | the same for one artifact and what is mounted into it, whatever was seen before |
| Extractors.Extractor.WriteConfig | pkg/extract/extract.go:118-130 | a config is put beside an artifact's files, none of which it takes away |
| Extractors.Extractor.WriteItem | pkg/extract/extract.go:252-283 | a member's files, or a reference to what is mounted, with type and platform filled in from the member |
| Extractors.Extractor.WriteMember | pkg/extract/extract.go:269-283 | a built member's files, its items typed and placed as the member is |
| Extractors.Extractor.WriteFiles | pkg/extract/extract.go:294-322 | the layers written at their places and the items that packed them, as the definition by recursion says |
| Extractors.Extractor.Classify | pkg/extract/extract.go:189-218 | the loop over an index's members gives each its kind, or the first failure |
| Extractors.Extractor.IsImage | pkg/extract/extract.go:224-247 | an index is an image when it holds images and otherwise only attestations |
| Extractors.Extractor.List | pkg/extract/file.go:48-98 | a listing is the layers of the manifest, or of the members built from files, with their paths |
| Extractors.WholeFromFinished | pkg/extract/extract.go:87-92 | what finished extractions add up to: the least set closed under mounting, all of it built |

## Left out

- TransferWork.AtMostTwicePerDigest: counts operations under a claimed key; a packer also reads each file once per item to find its digest, before the key is known.
- TransferPack.PackWork: counts a pack's calls along its routes, an item as often as it is listed, because that is how often it is read; uploads alone are shared.
- SequentialCopy.Copier.Copy: is the copier at a limit of 1 over a ranked graph; at higher limits and over loops the transition system takes its place.
- SequentialCopy.Copier.Walk: is at a limit of 1, as Copy is.
- SequentialCopy.Copier.Run: is at a limit of 1, as Copy is; above it the same claims are those of the transition system.
- Layouts.Layout.RemoveOrphans: removes in any order, where the code sorts; each claim holds for every order.
- Layouts.Layout.UnpackLayer: keeps a layer as present or absent, not its files.
- Sessions.LockKeepsCompleteIff: claims that reachable blobs are present, not that bytes half-written at a crash are right; a copy may claim digests in any way its references allow, though at a limit of 1 only one way is left.
- Sessions.LockKeepsComplete: takes every digest to be used in one way; what holds without that is Sessions.LockKeepsCompleteIff.
- TransferResults.ChildrenFirst: takes a digest to be of one kind; for the copier the case of several kinds is TransferKinds and what builds on it.
- TransferResults.SuccessIsClosure: the same; see TransferClaims.SuccessIsClosureIff.
- TransferResults.ScheduleIndependent: the same; see TransferClaims.OutcomesAre and TransferFirst.MixedDiffers.
- TransferClaims.OutcomesAre: is about the copier; a pack of which a file is byte for byte one of its own manifests is not modelled.
- RoundTrip.PackExtractPack: is about packs of files and directories that become a manifest without a config; downloaded items lose their names in extraction.
- IndexRoundTrip.BuildExtractBuild: is about the members built from files and directories; a mounted one comes back as a reference by digest (BuiltIndexes.MountedItemReads).
- Building.Destination.Mount: takes a slot without a key in the code and has no frame in the transition system; the image an item names is what the destination's registry says; how it is brought in (`MountFrom`) is not modelled.
- Building.HandleItem: takes a download's bytes and name from its address; the cached copies of downloads are not modelled.
- Building.Destination.PushIndex: pushes its members one after the other in any order; interleaved pushes are runs of the transition system.
- Extractors.Extract: takes the root's descriptor; resolving a name, and two artifacts whose directories overlap in part, are not modelled.
- Extractors.Extractor.Artifact: says what the directory it returns is called; what the directories of the artifacts mounted further down are called is not kept.
- Extractors.Extractor.WriteFiles: does not model what a write that breaks off leaves behind; nothing is claimed of the directories of an extraction that fails but what was there before.
- Annotations of a pack file itself, and those a build adds to every document (`extendAnnotations`).
- Panics inside `Once`, and deadlines of the caller.
- Failures to read the index file, and to tell whether a blob exists.
- `ParseRegistryReference`, `Merge`, `Open` and `Descriptors`: only easy members.
- Absolute names of `dir://` items: extraction refuses their layers.
- `SelectPlatform` and platform matching, the remote client, S3, the proxy and its cache, overlay mounts, HTTP.
- The encodings (tar, gzip, zstd, JSON, YAML): decoded values stand for them; the `created` time is dropped.
