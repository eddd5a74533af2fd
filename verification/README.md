# Verified models

A Dafny model of seven parts of the repository, each proved against what its
documentation promises. `dafny verify dfyconfig.toml` checks everything.

**Document collaboration.** Each person holds a copy of a document: an arena of
nodes in stacks, a position key per node, the last state seen of each, and the
nodes still without their parent. `position.dfy` orders the keys, `replica.dfy`
says what sharing and merging do on values, `convergence.dfy` and `stacking.dfy`
prove when order and batching do not matter, `sharing.dfy` treats echoes, repeats
and local steps, `reposition.dfy` the repair of keys. `collab.dfy` is the in-place
code, proved equal to the values, and `base64.dfy` the codec.

**Session leases and the fenced log.** `lease.dfy` is a state machine over the
steps of any replicas with any clock, in which a batch is two halves that claims
may come between. `reading.dfy` reads logs back, `store.dfy` is the in-place store.

**Reading a page into a document.** `build.dfy` is the builder as a value, and
`page.dfy` what the interpreter tells it: since the interpreter closes what it
opens, the events are trees. `arena.dfy`, `tip.dfy`, `paint.dfy`, `buildtree.dfy`
and `buildrun.dfy` keep the tree and the paint order, `readback.dfy` concludes for
whole documents. The `clip*.dfy` files do the same for clips. `builder.dfy` is the
in-place builder.

**Replaying transcripts.** `convert.dfy` converts stored parts, `replay.dfy` shows
that merging does not matter, `turns.dfy` that turns come back from being
flattened, `stream.dfy` what every replay looks like. `paging.dfy` cuts long
results and pages through them.

**Recording connections.** `router.dfy` attributes responses, `recorder.dfy` writes
one recording per session.

**Projecting GraphQL results.** `cacheonly.dfy` searches fragments that may be
cyclic, `projection.dfy` renders what is left, `inlining.dfy` writes fragments out.
`selecting.dfy` says which fields a type gets without the walk, and `emitting.dfy`
that the walk emits exactly the keys this gives.

**Startup chunks and opening lines.** `chunks.dfy` plans the chunks, `opening.dfy`
is the race between a turn and its opening line.

The value-level functions are what the lemmas are about; each method of a class is
proved to do what the function of its step does, so the lemmas hold of the
in-place code.

What the models show that the documentation does not say:

- `between` promises a key strictly between its ends. Past its depth limit it
  returns a key below its lower end (`Positions.BetweenCanFail`); it is right
  exactly when the limit is not reached.
- `spread` repeats keys in stacks over half the four-digit keys.
- In one batch a later state without content keeps an earlier one from adding its
  node (`Sharing.ContentlessStateLosesNode`). Replicas with the same last states
  hold the same document exactly when each new node's content arrives at both or at
  neither (`Convergence.OrderDoesNotMatter`); sharing sends it with every state of
  a new node, and then they always do (`Convergence.ContentMakesBatchingFree`).
- A state that changes only a position does not rebuild the stack
  (`Sharing.PositionAloneGoesStale`); a stack is right after a batch exactly when
  the batch relocates a node out of or into it or leaves it in order
  (`Stacking.StacksAfterApply`).
- A batch checks its lease once; another replica's claim can land before its rows,
  which are then stored under a superseded fence (`Leases.BatchCanBeSuperseded`).
  That is so exactly for rows stored after a claim was granted
  (`Leases.BatchFenceIsCurrent`). Store order still never goes down in fences, but
  read order can (`LogReads.ReadFencesCanGoDown`), exactly when a row under a later
  fence has an earlier time (`LogReads.FencesRiseInReadOrder`).
- The loop of `end_group` over frames that marked content left open never has any
  to close: the interpreter balances marked content within each form
  (`BuildRuns.FormEnds`).
- Ids that differ only in trailing separators replay as one (`Transcripts.ReplayPairs`).
- A page of no characters leads back to the same offset
  (`ToolResults.NoCharactersNoProgress`).
- A request that reuses the id of one still waiting loses that line
  (`Routers.LosslessIffIdsWait`), and sessions whose ids differ only in characters
  that file names do without write into one file
  (`Recorders.FileIsRecordingIffAlone`).

Clocks, schedules, minted ids and what a consumer does are parameters. A send is
appending to a sequence and a lock held across steps is a phase of the state.

## Model

| member | source | states |
|---|---|---|
| Positions.FindMidpoint | crates/fig_engine/src/collab/position.rs:33-72 | the midpoint search, digit by digit, is the function the order lemmas are about |
| Positions.SharedLength | crates/fig_engine/src/collab/position.rs:37-42 | how much of the upper key the lower one agrees with, padded by the smallest digit |
| Positions.Spread | crates/fig_engine/src/collab/position.rs:13-31 | evenly spread four-digit keys for a stack |
| Positions.BetweenIsAbove | crates/fig_engine/src/collab/position.rs:71-79 | a new key sorts above its lower neighbour if and only if the search does not reach its depth limit |
| Positions.AboveBelowUpperEnd | crates/fig_engine/src/collab/position.rs:33-72 | a new key sorts below its upper neighbour, at every depth of the search |
| Positions.BetweenIsBetween | crates/fig_engine/src/collab/position.rs:71-79 | a new key is strictly between any two well-formed keys in order, exactly when the search does not give up |
| Positions.BetweenCanFail | crates/fig_engine/src/collab/position.rs:34-36 | the promise of a key strictly between fails: after 129 top digits the key returned sorts below its lower end |
| Positions.MidpointLength | crates/fig_engine/src/collab/position.rs:33-72 | a new key is at most one digit longer than the longer neighbour |
| Positions.ShortKeysNeverGiveUp | crates/fig_engine/src/collab/position.rs:34-36 | neighbours short enough never make the search give up |
| Positions.MidpointIsDigits | crates/fig_engine/src/collab/position.rs:33-72 | new keys are made of digits and are never empty |
| Positions.NumeralOrder | crates/fig_engine/src/collab/position.rs:21-28 | fixed-width numerals sort as their values do |
| Positions.SpreadIsIncreasing | crates/fig_engine/src/collab/position.rs:13-31 | opening positions are well formed, and in stack order if and only if the stack takes at most half of the four-digit keys |
| Positions.CrowdedSpreadRepeats | crates/fig_engine/src/collab/position.rs:21-23 | with steps of one, skipping multiples of the base gives one key twice |
| Base64.EncodeBytes | crates/ai_engine/src/collab.rs:529-553 | the encoder writes four letters for each chunk begun, padded |
| Base64.DecodeString | crates/ai_engine/src/collab.rs:555-573 | the decoder keeps 0, 2, 4 or 6 pending bits and fewer than that many in its buffer, and stops at padding or a foreign letter |
| Base64.RoundTrip | crates/ai_engine/src/collab.rs:529-573 | decoding undoes encoding for every byte string |
| Base64.EncodeIsInjective | crates/ai_engine/src/collab.rs:529-553 | two byte strings are never written alike |
| Base64.EncodedLength | crates/ai_engine/src/collab.rs:529-553 | the length of what is written |
| Documents.StackIsStack | crates/ai_engine/src/collab.rs:466-489 | the rebuilt stack lists exactly the live members of a parent, sorted by position, then id, then place |
| Documents.StackIsUnique | crates/ai_engine/src/collab.rs:466-489 | whatever is already the sorted list of the members is what a rebuild gives |
| Documents.SameIdOrder | crates/ai_engine/src/collab.rs:466-489 | two replicas that agree on members and keys list a stack by the same ids |
| Convergence.ApplyKeeps | crates/ai_engine/src/collab.rs:326-463 | a batch keeps the invariant that each node has its last state, its parent if present and otherwise waits under exactly that id, and records the last state of every node in the batch |
| Convergence.SameStatesConverge | crates/ai_engine/src/collab.rs:326-463 | copies with the invariant and the same recorded states agree field by field if and only if they have the same nodes |
| Convergence.LinkingCompletes | crates/ai_engine/src/collab.rs:449-457 | after a batch only nodes whose parent is truly missing still wait |
| Convergence.RunKeeps | crates/ai_engine/src/collab.rs:326-463 | the invariant over any number of batches |
| Convergence.ApplyAdds | crates/ai_engine/src/collab.rs:386-412 | a batch adds exactly the nodes whose last state in it has their content |
| Convergence.OrderDoesNotMatter | crates/ai_engine/src/collab.rs:326-463 | replicas of one opened document that took in the same last state per node, in any order and any batching, hold the same document if and only if every new node's content arrives at both or at neither |
| Convergence.ContentMakesBatchingFree | crates/ai_engine/src/collab.rs:326-463 | with its content in every state of a new node, as sharing sends it, the last states alone settle the document |
| Stacking.StacksAfterApply | crates/ai_engine/src/collab.rs:370-489 | after a batch a stack is right if and only if a last state of the batch relocates a node out of or into it, or their positions leave it in order; both are about the replica before the batch |
| Stacking.RebuiltStacks | crates/ai_engine/src/collab.rs:436-463 | the stacks rebuilt are exactly those the last states of the batch relocate a node out of or into |
| Stacking.StacksStayExact | crates/ai_engine/src/collab.rs:436-489 | every stack stays exactly its live children in order if and only if that holds of each stack before the batch |
| Stacking.RelocatingKeepsOrder | crates/ai_engine/src/collab.rs:436-437 | it does if every entry adds, re-parents, removes or restores its node, or leaves its position |
| Stacking.StacksConverge | crates/ai_engine/src/collab.rs:466-489 | converged replicas with right stacks list every stack alike |
| Stacking.OrderDoesNotMatterToStacks | crates/ai_engine/src/collab.rs:326-489 | over whole runs of such batches, order and batching do not matter to the stacks either |
| Sharing.ChangesRecords | crates/ai_engine/src/collab.rs:276-323 | what sharing emits, one absolute state per changed node, and what it records |
| Sharing.EchoIsSilent | crates/ai_engine/src/collab.rs:326-463 | a replica's own changes coming back change nothing and report nothing |
| Sharing.EchoIsSilentAlways | crates/ai_engine/src/collab.rs:276-463 | so from every state people get to by receiving and sharing: what is shared next comes back as nothing new |
| Sharing.NothingMoreToShare | crates/ai_engine/src/collab.rs:276-323 | a second share without a new step is empty |
| Sharing.ApplyAgain | crates/ai_engine/src/collab.rs:326-463 | a batch with one state per node, received again, changes nothing at all |
| Sharing.ApplyAgainConverges | crates/ai_engine/src/collab.rs:326-463 | any batch, received again, leaves the same document |
| Sharing.ChangesKeeps | crates/ai_engine/src/collab.rs:276-323 | sharing restores the invariant that local steps broke, and what is sent can be merged by anyone |
| Sharing.PeopleConverge | crates/ai_engine/src/collab.rs:276-463 | two people who received and shared in any order and know the same last states hold the same document if and only if every new node got to both or to neither |
| Sharing.SendingWholeConverges | crates/ai_engine/src/collab.rs:276-463 | if new nodes are received with their content, the last states alone settle the document |
| Sharing.ContentlessStateLosesNode | crates/ai_engine/src/collab.rs:370-412 | a later state without content in the same batch keeps a node from being added, where separate batches of the same entries add it: the two documents differ |
| Sharing.PositionAloneGoesStale | crates/ai_engine/src/collab.rs:436-442 | a state that changes a position only does not rebuild the stack, which is then out of order |
| Repositioning.StackOrdered | crates/ai_engine/src/collab.rs:216-252 | a repaired stack has strictly increasing keys if and only if the key search never gave up |
| Repositioning.StacksOrdered | crates/ai_engine/src/collab.rs:216-252 | the same for all touched stacks together, each repaired once |
| Repositioning.OrderedStacksUntouched | crates/ai_engine/src/collab.rs:216-252 | stacks already in order are left as they are |
| Repositioning.ShortStacksAreRepaired | crates/ai_engine/src/collab.rs:216-252 | stacks of short keys are always repaired |
| Repositioning.RepairsAreNoted | crates/ai_engine/src/collab.rs:216-252 | every id whose key changed is noted as changed, and nothing outside the stacks is |
| Repositioning.RebuildAgrees | crates/ai_engine/src/collab.rs:466-489 | a stack whose keys increase is what a rebuild from positions gives |
| Repositioning.RepairThenRebuild | crates/ai_engine/src/collab.rs:216-252 | after a repair that did not give up, rebuilding the touched stacks changes nothing |
| Repositioning.RecordKeeps | crates/ai_engine/src/collab.rs:200-252 | recording a local step, however many came before it, leaves the invariant broken only at nodes noted |
| Repositioning.StepsThenShare | crates/ai_engine/src/collab.rs:200-323 | any number of recorded steps may be shared at once: sharing restores the invariant |
| Collaboration.Collab.constructor | crates/ai_engine/src/collab.rs:147-183 | starting on an opened document: ids, states and opening positions |
| Collaboration.Collab.SpreadStack | crates/ai_engine/src/collab.rs:147-183 | spreads positions over one stack |
| Collaboration.SpreadOverOrders | crates/ai_engine/src/collab.rs:147-183 | a stack spread over is in order if and only if it is not too long for four-digit keys |
| Collaboration.Collab.Record | crates/ai_engine/src/collab.rs:203-214 | notes what a step changed, in place |
| Collaboration.Collab.Reposition | crates/ai_engine/src/collab.rs:216-252 | repairs the order keys of the touched stacks, in place |
| Collaboration.Collab.RepairStack | crates/ai_engine/src/collab.rs:227-250 | walks one stack from the bottom, giving new keys between neighbours |
| Collaboration.Collab.Changes | crates/ai_engine/src/collab.rs:276-323 | emits the changed nodes' states and records them as shared |
| Collaboration.Collab.Apply | crates/ai_engine/src/collab.rs:326-463 | merges a batch in place: equal to the value-level merge the convergence lemmas are about |
| Collaboration.Collab.TakeIn | crates/ai_engine/src/collab.rs:370-385 | keeps the newest state per node of a batch and skips known ones |
| Collaboration.Collab.MergeNode | crates/ai_engine/src/collab.rs:386-448 | writes one state into the arena, noting moved parents and waiting nodes |
| Collaboration.Collab.LinkArrived | crates/ai_engine/src/collab.rs:449-457 | links waiting nodes whose parent has arrived |
| Collaboration.Collab.Relink | crates/ai_engine/src/collab.rs:466-489 | rebuilds the stacks of some parents from parents and positions |
| Leases.StepKeeps | crates/agent_session/src/testing.rs:616-977 | every step of any replica keeps the invariant, with claims landing between a batch's check and its pushes |
| Leases.RunKeeps | crates/agent_session/src/testing.rs:616-977 | and so does every run |
| Leases.FencesNeverGoDown | crates/agent_session/src/testing.rs:872-977 | in every reachable store the fences tagging a session's rows never go down in store order |
| Leases.AtMostOneClaimIsValid | crates/agent_session/src/testing.rs:616-670 | of all claims ever issued on a session at most one is valid |
| Leases.DeadForGood | crates/agent_session/src/testing.rs:616-670 | a claim that is no longer valid never becomes valid again |
| Leases.ClaimIsStable | crates/agent_session/src/testing.rs:628-655 | a valid claim survives a step if and only if the step is not its release, its replica's next claim, or a claim by another while the holder is stale or draining |
| Leases.ClaimLasts | crates/agent_session/src/testing.rs:628-655 | the same over whole runs |
| Leases.RefusalMatchesView | crates/agent_session/src/testing.rs:640-712 | a claim is refused in favour of a holder if and only if the lease view at that instant shows that other holder live and not draining |
| Leases.BatchCanBeSuperseded | crates/agent_session/src/testing.rs:886-911 | a run from the empty store in which another replica claims between a batch's lease check and its rows, which are stored under the superseded fence |
| Leases.BatchFenceIsCurrent | crates/agent_session/src/testing.rs:886-911 | a row of a batch is stored under the fence then current if and only if no claim on the session was granted since the lease check |
| Leases.FenceCountsGrants | crates/agent_session/src/testing.rs:634-655 | over any run a fence grows by exactly the claims granted |
| Leases.PushAllPushes | crates/agent_session/src/testing.rs:903-911 | with nothing in between, the second half of a batch appends its rows |
| LogReads.ReadOrderSorts | crates/agent_session/src/testing.rs:988-988 | reading sorts by time and id and drops or adds nothing |
| LogReads.BatchReadsInOrder | crates/agent_session/src/testing.rs:900-911 | wherever a batch's rows are in a log, and whatever else is, they are read in append order |
| LogReads.ReadsInStoreOrder | crates/agent_session/src/testing.rs:979-1007 | a log reads in store order if and only if it was stored in time order |
| LogReads.FencesRiseInReadOrder | crates/agent_session/src/testing.rs:979-1007 | in every reachable store fences rise in read order if and only if no row under a later fence has an earlier time than one under an earlier fence |
| LogReads.ReadFencesCanGoDown | crates/agent_session/src/testing.rs:886-1007 | a run from the empty store after which they go down |
| LogReads.ReadsFromBoundary | crates/agent_session/src/testing.rs:989-1006 | in every reachable store the boundary names a row, and a log without notifications is read exactly from it on |
| SessionStores.SessionStore.Claim | crates/agent_session/src/testing.rs:616-655 | the claim, on maps updated in place |
| SessionStores.SessionStore.Release | crates/agent_session/src/testing.rs:658-670 | a superseded claim releases nothing |
| SessionStores.SessionStore.Heartbeat | crates/agent_session/src/testing.rs:672-685 | a beat without an address keeps the one published |
| SessionStores.SessionStore.LeaseView | crates/agent_session/src/testing.rs:687-712 | the live holder, with its address and whether it drains |
| SessionStores.SessionStore.BeginDraining | crates/agent_session/src/testing.rs:715-723 | draining, and starting a row for an unknown replica |
| SessionStores.SessionStore.CreateLog | crates/agent_session/src/testing.rs:741-751 | appends a row to its session's log |
| SessionStores.SessionStore.CreateProjected | crates/agent_session/src/testing.rs:925-977 | the checks in order, then row, boundary and turn state |
| SessionStores.SessionStore.CreateBatchFenced | crates/agent_session/src/testing.rs:872-912 | checks the lease, then pushes each row and overwrites it |
| SessionStores.SessionStore.Delete | crates/agent_session/src/testing.rs:568-585 | deletes a session's rows, boundary and turn state, not its lease |
| SessionStores.SessionStore.ListBySession | crates/agent_session/src/testing.rs:979-1007 | sorts, finds the boundary row, and skips to it without notifications |
| Arenas.AppendTree | crates/ai_engine/src/build.rs:382-400 | adding a node keeps links both ways and children after parents |
| Arenas.TipLeaves | crates/ai_engine/src/build.rs:382-400 | a change at the tip of a path changes the leaves above it in one way: at the end |
| Tips.DetachTree | crates/ai_engine/src/build.rs:527-532 | an empty form group taken out leaves a tree |
| Tips.HoistTree | crates/ai_engine/src/build.rs:509-523 | a wrapper replaced by its child leaves a tree |
| Tips.TidyKeeps | crates/ai_engine/src/build.rs:476-524 | tidying a form group keeps the tree and the left-to-right leaves |
| PaintOrder.AddLeaf | crates/ai_engine/src/build.rs:403-406 | a leaf added is the last leaf of its layer and of no other |
| PaintOrder.TidyGroup | crates/ai_engine/src/build.rs:476-524 | tidying keeps every layer's leaves equal to what was drawn in it |
| Pages.BeginGroupFrames | crates/ai_engine/src/build.rs:786-829 | a form that is entered pushes exactly one frame |
| Pages.BeginMarkedFrames | crates/ai_engine/src/build.rs:843-925 | what marked content notes is what it takes to undo it |
| Pages.Process | crates/ai_engine/src/interp.rs:919-949 | whatever events run, the frames below the top, the open marks, the skipping and the hiding end as they began: forms return to the depth before them and the stack never empties |
| Pages.ProcessOne | crates/ai_engine/src/interp.rs:919-949 | the same for one form, marked content or painting |
| BuildTrees.ContainerOk | crates/ai_engine/src/build.rs:313-369 | the container for something painted is the tip of the path of last children |
| BuildTrees.FrameContainerOk | crates/ai_engine/src/build.rs:372-379 | the default layer is made when needed and keeps the invariant |
| BuildRuns.PopFrameOk | crates/ai_engine/src/build.rs:463-472 | closing a frame keeps the invariant |
| BuildRuns.FormEnds | crates/ai_engine/src/build.rs:831-841 | the form's own frame is on top when it ends, so exactly it is closed |
| BuildRuns.ProcessOk | crates/ai_engine/src/build.rs:786-939 | every list of events keeps the tree, the path and the paint order |
| ReadBacks.ProcessPaints | crates/ai_engine/src/build.rs:614-939 | events paint exactly what they say, in order, with what hides them, and nothing while drawing is skipped |
| ReadBacks.FinishIdle | crates/ai_engine/src/build.rs:456-460 | at a page's end only the page's own frame is left |
| ReadBacks.DocumentReadsBack | crates/ai_engine/src/build.rs:39-145 | for every document the arena is a tree, each layer's leaves are what was drawn in it in order, and what was drawn is what the pages paint |
| ReadBacks.NothingDrawnIsLost | crates/ai_engine/src/build.rs:382-406 | everything drawn is a live leaf of the layer it was drawn in |
| ClipChains.FramesAreLive | crates/ai_engine/src/build.rs:456-532 | no frame's container or open clip group is ever a removed node |
| ClipGroups.OpenGroupsSpell | crates/ai_engine/src/build.rs:346-365 | each clip group opened is inside the one before and carries the wanted clip |
| ClipContainers.ContainerSpells | crates/ai_engine/src/build.rs:313-369 | the groups above the container for something painted spell its clips |
| ClipFrames.FormFrameSpells | crates/ai_engine/src/build.rs:800-828 | a form's frame spells the clips it is painted under and its box |
| ClipFrames.NameFormSpells | crates/ai_engine/src/build.rs:870-884 | a form named by a mark spells the same without its box |
| ClipMeaning.ClipsKeepTheirMeaning | crates/ai_engine/src/build.rs:313-406 | every object drawn is under groups that spell the clips in effect, if inner clip lists extend those of their frames |
| ClipMeaning.PlainPages | crates/ai_engine/src/build.rs:313-406 | on pages whose forms and marked groups nest their clips and whose groups take no clip of their own, clips nest at every step |
| ClipMeaning.ClipsInEffect | crates/ai_engine/src/build.rs:301-369 | on such pages the groups above each object carry exactly the clips in effect when it was drawn, minus the page's own box, in order |
| PageBuilder.Builder.OwnClip | crates/ai_engine/src/build.rs:313-330 | a marked group takes its own clip, the next one set |
| PageBuilder.Builder.GetContainer | crates/ai_engine/src/build.rs:313-369 | keeps the longest part of the open groups the clips agree with and opens the rest |
| PageBuilder.Builder.MakeContainer | crates/ai_engine/src/build.rs:372-379 | the frame's container, making the default layer when needed |
| PageBuilder.Builder.InsertNode | crates/ai_engine/src/build.rs:382-400 | adds a node under a parent; a leaf takes the name a mark gave |
| PageBuilder.Builder.AddNode | crates/ai_engine/src/build.rs:403-406 | adds an object painted under some clips |
| PageBuilder.Builder.Pop | crates/ai_engine/src/build.rs:463-472 | one frame less, a form's group having been tidied |
| PageBuilder.Builder.TidyFormGroup | crates/ai_engine/src/build.rs:476-524 | drops, unclips or replaces a form's group |
| PageBuilder.Builder.TakeOut | crates/ai_engine/src/build.rs:527-532 | unlinks a node from its parent and marks it removed |
| PageBuilder.Builder.ContentBounds | crates/ai_engine/src/build.rs:486-490 | the bounds of what a group holds |
| PageBuilder.Builder.BeginForm | crates/ai_engine/src/build.rs:786-829 | a form starts, unless it is skipped or drawn whole |
| PageBuilder.Builder.EndForm | crates/ai_engine/src/build.rs:831-841 | closes frames down to and with the form's |
| PageBuilder.Builder.BeginMark | crates/ai_engine/src/build.rs:843-925 | what each tag does |
| PageBuilder.Builder.EndMark | crates/ai_engine/src/build.rs:927-939 | undoes what the mark did |
| PageBuilder.Builder.FinishPage | crates/ai_engine/src/build.rs:456-460 | closes the page's frames |
| PageBuilder.Builder.BeginLayerMark | crates/ai_engine/src/build.rs:534-544 | finds or makes the layer of an optional content group and pushes its frame |
| PageBuilder.Builder.Run | crates/ai_engine/src/interp.rs:919-949 | what the interpreter tells the sink, and what that does |
| ToolResults.ToolResultLimit.View | crates/agent/src/tool_result_limit.rs:51-73 | a result too long is cut to its preview and kept whole |
| ToolResults.ToolResultLimit.Read | crates/agent/src/tool_result_limit.rs:77-91 | one page of a kept result |
| ToolResults.PagesFollow | crates/agent/src/tool_result_limit.rs:77-91 | pages read one after another are the text without gap or overlap |
| ToolResults.PagesReachTheEnd | crates/agent/src/tool_result_limit.rs:77-91 | asking for at least one character each time, the last page says it is the last and the pages are everything from the offset |
| ToolResults.ProgressIffAsked | crates/agent/src/tool_result_limit.rs:77-91 | a page ends the text or makes progress if and only if a character is asked for |
| ToolResults.PreviewAndPagesAreWhole | crates/agent/src/tool_result_limit.rs:51-91 | the preview and the pages it points to make up the whole result |
| Transcripts.ConvertAssistant | crates/agent/src/convert.rs:132-212 | a message stored as one text, or the conversion loop with its flushes, and which results it keeps for reading |
| Transcripts.TakePart | crates/agent/src/convert.rs:145-208 | what one part does to the turn being built |
| Transcripts.Flush | crates/agent/src/convert.rs:268-285 | the assistant's message, then the results' |
| Transcripts.TrimIsUnique | crates/agent/src/convert.rs:230-232 | trimming is the one prefix that ends in no separator and drops only separators |
| Transcripts.ReplayPairs | crates/agent/src/convert.rs:221-243 | a call and a result replay under one id if and only if their ids differ only in trailing separators |
| Replays.MergeConsecutiveParts | crates/agent/src/convert.rs:246-266 | the merging loop |
| Replays.MergeFixes | crates/agent/src/convert.rs:245-266 | merging changes exactly the lists with something to merge, and twice is once |
| Replays.MergeSaysTheSame | crates/agent/src/convert.rs:245-266 | merging keeps every character of text and thinking and every other part, in order |
| Replays.MergeIsCanonical | crates/agent/src/accumulator.rs:8-14 | two streams of non-empty parts are stored alike if and only if they say the same, however they were split |
| Replays.ReplayIgnoresMerging | crates/agent/src/convert.rs:132-266 | replaying merged parts is replaying the parts |
| Replays.KeptIgnoresMerging | crates/agent/src/convert.rs:132-266 | nor do the results kept for reading depend on merging |
| Replays.LastCutIsKept | crates/agent/src/convert.rs:216-219 | the last result cut under an id can be read whole after a replay |
| Turns.ConvertIsTurns | crates/agent/src/convert.rs:74-78 | replaying writes out the turns of the tool loop, one after another |
| Turns.FlattenRoundTrip | crates/agent/src/convert.rs:74-78 | a list of turns comes back from being flattened if and only if every turn but the last has a call, every later one begins with text and none is empty |
| Turns.ReplayTurns | crates/agent/src/convert.rs:132-212 | replaying flattened turns gives each turn's messages |
| Streams.ReplayShape | crates/agent/src/convert.rs:132-212 | every assistant message is at most one text and then calls, and no two user messages are adjacent |
| Streams.ReplayKeepsEverything | crates/agent/src/convert.rs:132-212 | all text, every call and every result are kept, each in order |
| Streams.StreamAccumulator.Push | crates/agent/src/accumulator.rs:32-36 | stores what a stream part persists as, if anything |
| Streams.Accumulate | crates/agent/src/accumulator.rs:32-47 | a stream stored part by part and read back merged |
| Streams.StoredReplaysTheStream | crates/agent/src/accumulator.rs:32-47 | the stored message replays as the raw stream would |
| CacheOnly.Search.SelectionSetHasCacheOnly | apps/web/scripts/graphql-cache-only-projection-codegen.ts:35-73 | the search with its one active set, which is restored |
| CacheOnly.FoundIsReached | apps/web/scripts/graphql-cache-only-projection-codegen.ts:35-73 | what the search finds is reached by some chain of spreads |
| CacheOnly.ReachedIsFound | apps/web/scripts/graphql-cache-only-projection-codegen.ts:35-73 | any chain to a field, its cycles cut, is one the search takes |
| CacheOnly.HasIsReachable | apps/web/scripts/graphql-cache-only-projection-codegen.ts:35-73 | on any fragments, cyclic or not, the search answers exactly whether a field marked is reachable |
| CacheOnly.SearchDecides | apps/web/scripts/graphql-cache-only-projection-codegen.ts:35-73 | without unknown fragments it never fails |
| Projections.Collector.CollectSelections | apps/web/scripts/graphql-cache-only-projection-codegen.ts:159-206 | collecting with one active set, restored, and fields in order |
| Projections.CollectedIsLighter | apps/web/scripts/graphql-cache-only-projection-codegen.ts:150-263 | what is walked below weighs less, by fragments left to enter and then size, so the walk ends on every fragment map |
| Selecting.CollectedIffSelected | apps/web/scripts/graphql-cache-only-projection-codegen.ts:150-206 | on any fragments, cyclic or not, a field is collected under a key if and only if one not marked is reached under it by inline fragments and spreads whose conditions all apply |
| Selecting.SelectedIsCollected | apps/web/scripts/graphql-cache-only-projection-codegen.ts:159-206 | whatever chain of spreads leads to a key, its cycles cut, is one the walk takes |
| Emitting.CollectMatches | apps/web/scripts/graphql-cache-only-projection-codegen.ts:159-206 | without fragment cycles the fields collected are those of section 6.3.2 of the GraphQL specification, not marked, in order |
| Emitting.KeyIsEmitted | apps/web/scripts/graphql-cache-only-projection-codegen.ts:150-263 | an operation gives a concrete type a response key if and only if a field not marked is selected under it and its merged sub-selections give some object type some key in turn |
| Emitting.RenderedIffShown | apps/web/scripts/graphql-cache-only-projection-codegen.ts:150-263 | the same at every level below the operation |
| Inlining.RenderInlined | apps/web/scripts/graphql-cache-only-projection-codegen.ts:150-286 | writing out every spread changes neither the projection nor the failure |
| Inlining.FragmentsAreShorthand | apps/web/scripts/graphql-cache-only-projection-codegen.ts:265-286 | an operation on a document without fragment cycles projects like the operation with fragments written out |
| Routers.PendingIsHistory | crates/agent_session/examples/agent_session_recorder.rs:193-203 | the pending map is the history, scanned back for the last unanswered request |
| Routers.ResponsesAreAttributed | crates/agent_session/examples/agent_session_recorder.rs:239-266 | a response goes where the request it answers went, with the request if it minted a session |
| Routers.NothingVanishes | crates/agent_session/examples/agent_session_recorder.rs:205-277 | every line routed in is emitted, held or dropped, as often as it came |
| Routers.LosslessIffIdsWait | crates/agent_session/examples/agent_session_recorder.rs:205-277 | no line is dropped if and only if no request reuses the id of one still waiting unattributed |
| Routers.Conserved | crates/agent_session/examples/agent_session_recorder.rs:205-277 | what came in is what is emitted and held, under exactly that condition |
| Routers.LeftoversAreHeld | crates/agent_session/examples/agent_session_recorder.rs:280-291 | draining gives back exactly the lines held |
| Recorders.SessionRouter.RouteLine | crates/agent_session/examples/agent_session_recorder.rs:205-277 | routing one line, in place |
| Recorders.SessionRouter.Drain | crates/agent_session/examples/agent_session_recorder.rs:280-291 | gives back waiting request lines in key order and empties the map |
| Recorders.RunWriter.AppendLine | crates/agent_session/examples/agent_session_recorder.rs:327-367 | appends one routed line, opening a recording on its session's first |
| Recorders.RecordRun | crates/agent_session/examples/agent_session_recorder.rs:304-321 | routes and writes a connection's lines, then what was left waiting |
| Recorders.RecordingStandsAlone | crates/agent_session/examples/agent_session_recorder.rs:323-367 | a recording has every shared line and every own line, in order, and nothing else |
| Recorders.SameFile | crates/agent_session/examples/agent_session_recorder.rs:148-165 | two sessions share a file if and only if their ids differ only in characters file names do without |
| Recorders.FileIsRecordingIffAlone | crates/agent_session/examples/agent_session_recorder.rs:148-367 | a session's file grows by exactly its recording if and only if no other session opened shares the file |
| Recorders.RunConserves | crates/agent_session/examples/agent_session_recorder.rs:304-321 | a finished run emits each line as often as it came, if and only if no waiting id is reused |
| Recorders.RunRecordingsStandAlone | crates/agent_session/examples/agent_session_recorder.rs:300-367 | after a whole run a session's file gained every shared line and every own line, in order, and nothing else, if no other session recorded to it |
| Chunks.Startup | apps/web/vite.base.ts:192-198 | the worklist ends with exactly the modules reachable from the entries |
| Chunks.Schemas | apps/web/vite.base.ts:199-212 | the deletion passes end with the largest set of generated modules importing only libraries and each other, in whatever order they run |
| Chunks.SchemasAreAppFree | apps/web/vite.base.ts:199-212 | a module stays if and only if everything it reaches without going through a library is generated |
| Chunks.PlanChunks | apps/web/vite.base.ts:187-219 | exactly which modules go to which chunk |
| Chunks.NoWayBack | apps/web/vite.base.ts:181-184 | no module of the generated clients' chunk imports application code outside that chunk |
| OpeningLines.Turn.Race | crates/agent_inmem/src/rig_engine.rs:717-743 | parts pass until the verdict or until the turn speaks |
| OpeningLines.Turn.SendLine | crates/agent_inmem/src/rig_engine.rs:766-786 | the line, delta after delta, until it ends or stalls |
| OpeningLines.Turn.SendRest | crates/agent_inmem/src/rig_engine.rs:804-823 | the rest of the stream, its first prose set off once |
| OpeningLines.Turn.Drive | crates/agent_inmem/src/rig_engine.rs:710-827 | for every schedule, and a consumer that leaves at any point, what is sent is a beginning of the stream; or of a thinking and usage prefix, the line, and the rest with one part set off; or of the prefix and a whole line |
| OpeningLines.NothingLostOrReordered | crates/agent_inmem/src/rig_engine.rs:710-824 | a consumer that stays reads, up to white space, the line and the turn's whole prose, and gets every other part in order; only a line that stands alone takes the place of what would follow |
| OpeningLines.LeavingLosesTheEnd | crates/agent_inmem/src/rig_engine.rs:725-823 | one that leaves has read a beginning of that |
| OpeningLines.SeparatedOnce | crates/agent_inmem/src/rig_engine.rs:809-815 | exactly one part is changed, the first with prose, or none if there is none |
| OpeningLines.LineSaysItsDeltas | crates/agent_inmem/src/rig_engine.rs:770-786 | the line as sent says what its deltas say |

## Left out

- Collaboration.Collab.constructor: leaves out session numbers, the allocation of node ids and image keys; nodes keep the ids they are given.
- Collaboration.Collab.Changes: leaves out image entries and document-state entries.
- Collaboration.Collab.Apply: leaves out image entries, document-state entries and the dirty rectangle.
- Collaboration: `kind`, `edits` and `source` do not converge (they depend on history) and nothing keeps concurrent re-parenting from making cycles, so neither is claimed.
- Collaboration: states are compared whole, not by hash, and JSON text is not modelled.
- SessionStores.SessionStore.CreateLog: leaves out the status and model changes that an event makes while it is appended.
- Sessions: queues, users and preferences; the seeding of logs and the initialisation of turn states.
- Sessions: `Instant` and wall clocks are numbers given with each step; unstable sorting can only differ on rows with equal time and id.
- Leases.FencesNeverGoDown: speaks of rows tagged with the fence they were appended under; the store keeps no such tag, so it is a field of the model only.
- Leases.RefusalMatchesView: compares with a view at the same instant; the view and the claim take their locks separately.
- Page building: fonts, text blocks, images, shadings and paint servers are opaque shapes; a drawing that adds nothing is no event.
- Page building: whether a path is a rectangle around a page box is a flag on the clip; bounds are real numbers and rectangles, transforms are applied already, and the half-unit tolerance is kept.
- Page building: generated layer names, layer colours, artboards, node ids and sources; the optional content table is read from events only.
- ClipMeaning.ClipsKeepTheirMeaning: is about pages whose inner clip lists extend those of their frames; a page that unbalances them is not covered, and neither is a marked group whose later content loses the clip it took as its own.
- ClipMeaning.ClipsInEffect: is for pages whose marked groups take no clip of their own and do not stand directly in a form, which they might name; the general statement is the one above.
- ClipMeaning.PlainPages: is for the same pages.
- Page building: the indices of the arena are looked up totally; that they are never past its end is what `Arenas.Tree` and `ClipChains.FramesAreLive` say.
- Transcripts: attachments of user messages, rendering of media results, system messages; a JSON value is its text and two flags.
- Tool results: the note's escaping, and that an escaped page fits under the cut limit.
- Recording: parsing of lines, files that fail to open or write, timestamps; ids are numbers that sort as their text does, and the two directions are the only ones.
- Recorders.RecordingStandsAlone: is about lines of one run; a file that existed before keeps what it had in front.
- Projection: printing types as TypeScript (wrapping in lists and null, merging equal branches), enumerations and scalars by name, and choosing the operations to render.
- Emitting.KeyIsEmitted: is for documents without fragment cycles; on cyclic ones the walk is shown to end, and what it collects at its first level is shown exactly.
- Inlining.FragmentsAreShorthand: is for documents without fragment cycles.
- Chunks: the cache of plans per build.
- Opening line: how the verdict is reached (`opener` is not part of this model), telemetry and the setting up of tools and prompts.
- Gating, credentials, model routing, canvases, transports and the Postgres adapters.
