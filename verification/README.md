# Verified models of assist

A Dafny project that models the stateful parts of `assist` and proves what their code
keeps over every input, every step and every run. Each component has a specification in
functions, the code's own form (classes whose methods change fields, loops with
invariants) proved against it, and theorems about the specification.

| component | modules |
|---|---|
| LLM-affinity queue | `QueueSpec`, `QueueProofs`, `QueueTurns`, `ThreadQueue` |
| Prompt provenance | `Spans`, `PythonRepr`, `Search`, `Template`, `Replacement`, `Serialized`, `Content`, `Provenance`, `Transitions`, `Layout` |
| Branch and merge protocol | `Git`, `DomainManager`, `Merge`, `Publish`, `Clone` |
| Egress grants and proxy | `KeyedStore`, `EgressStore`, `EgressProofs`, `EgressFiles` |
| Region provisioner | `GeoSpec`, `GeoProofs`, `GeoOutcomes`, `GeoDelivery`, `Provisioner` |
| Durable runs | `RunSpec`, `RunProofs`, `RunOutcomes`, `RunService`, `RecordStore` |
| Polyline, retention, rollback | `Polyline`, `Retention`, `Rollback` |

`dafny verify dfyconfig.toml` checks the whole project.

## Assumptions

- Queue: one locked section under the Condition is one step; handles and waiters are
  identified by index and ticket; time is real-valued; starting a timer belongs to the
  grant; state callbacks do not raise (a raise at assist/thread_queue.py:246 would leave
  the slot held with no timer); a thread id has one turn at a time between the end of a
  block and its `pop_hold`; caps are not negative.
- Git: a repository is a commit graph, refs, HEAD, index and work tree; every command may
  fail; a remote is configured; the contents of diffs are inputs.
- Egress: the order of the records in a file is an input; hosts are lower-case, not empty
  and without colon, ports in range, the clock does not go back, and the process does not
  die between the two file replacements.
- Census: constructor prompts and the base prompt are not empty; the results of
  `ast.literal_eval`, of the regular expressions and of Python's character tests are
  inputs; template texts are given as parsed.
- Provisioner: the scan and deliveries of `deliver_pending` are one step, with any set of
  answers; the worker's delivery is two steps, so anything may happen in between.
- Runs: a list is what the next read of the file gives, so empty optional fields are None.
- Retention: sweeps run one at a time, with the writers stopped; thread names stand for
  their rank in string order; a process may die at any transaction, which undoes it;
  batches have at least one row, as in every call of the code.

## Where the code gives less than it seems to promise

Each of these is a lemma or a method below at a concrete input, beside the exact condition
under which the code does keep the promise:

- A pause flagged just before the cap expires the handle persists nothing, so the turn
  resumes from zero and the cap can be exceeded. The comment at assist/thread_queue.py:316
  that both flags are never set at once holds for one tick only.
- `sync` can commit on main when the read of HEAD fails. It can take commits off main when
  an agent has left a rebase of main half-way: aborting it puts main where the rebase began,
  even if a fetch has moved main since. `merge_to_main` does the same when its own rebase
  fails on a stuck one and is aborted.
- `merge_to_main` strands a detached HEAD on main; a failing `rev-list` lets
  `reset --hard` drop an unpushed merge.
- A projection that can be neither rewritten nor removed keeps honouring a revoked grant.
- A `resolve` that raises because of the projection has decided its request all the same,
  and the decision is announced, so announcements can exceed the successful calls.
- The ownership check of a nested template field is weaker than tiling; a synthetic place
  behind an empty last block leaves a hole in a re-serialised prompt, which the closing
  checks find unless another replacement follows.
- A block whose text also occurs in front of it in the serialised form, as a key does, is
  looked up at that earlier place, and its characters' labels go to the wrong escapes.
- An add accepted while a region's earlier failure is still being announced can lose its
  proposal to that announcement, and its own notice is then never posted.
- A notice can be posted once more for each process that dies between the post and its
  bookkeeping.
- Re-creating a run with an empty-string parent field, or re-importing a record with an
  empty-string sender or origin or an empty rider, conflicts with its own stored form.
- `invoke_with_rollback` reaches its trailing RuntimeError when retries is zero and depth
  at least two, or when exactly one of them is negative and the other is not zero.

## Model

| member | source | states |
|---|---|---|
| QueueProofs.StepKeepsInv | assist/thread_queue.py:162-416 | every locked section, in any order, keeps: the handles inside their block that are not expired are exactly the holder, each waiter stands in one queue and its flag names it, and a sleeper that was not notified has a false guard |
| QueueProofs.RunKeepsInv | assist/thread_queue.py:162-416 | the same over every interleaving of calls, wake-ups, callbacks and time |
| QueueProofs.FreeSlotGoesToHead | assist/thread_queue.py:218-240 | with the slot free and waiters queued, exactly the head is enabled, it has been notified, and waking it takes the slot for its own call and removes it alone |
| QueueProofs.NoBarging | assist/thread_queue.py:193-251 | a fresh caller gets the slot if and only if it is free and nobody of its own or a higher tier waits; otherwise it stands last in its tier, or leaves no trace if its wait had run out |
| QueueProofs.PopIsRemoval | assist/thread_queue.py:229-240 | the head pop on the queue named by the waiter's own flag removes that waiter and no other |
| QueueProofs.WithoutAt | assist/thread_queue.py:218-227 | `deque.remove` of a queued waiter deletes its position and shifts the rest |
| QueueProofs.StaleHandleIsInert | assist/thread_queue.py:276-342 | after any history, a late exit or stale tick of a force-released handle changes neither the holder, the queues nor `_active_hold_ms`, even when the same thread id holds the slot again |
| QueueProofs.PauseHasAReason | assist/thread_queue.py:325-416 | after a step a pause flag is up if and only if it was up before, the step was `request_pause` for that thread, or a tick of the holder below its cap whose slice has lasted its quantum while somebody waits |
| QueueProofs.TickDecides | assist/thread_queue.py:310-371 | a tick of the holder: at the cap the handle is expired, the slot free, everybody notified and no timer left; below it the holder stays and the next tick is due after the smaller of quantum and remaining time |
| QueueProofs.ExitDecides | assist/thread_queue.py:276-308 | the end of a block: a holder's time, earlier slices included, is kept under its thread, the slot freed and everybody notified; a handle that no longer holds the slot changes neither |
| QueueProofs.WakingSleeps | assist/thread_queue.py:218-240 | a wake-up with the slot taken, or behind the head, sleeps on in its place before its deadline |
| QueueProofs.WakingGivesUp | assist/thread_queue.py:218-251 | and at its deadline leaves its queue, the others keeping their order and being notified |
| QueueProofs.OthersDecide | assist/thread_queue.py:373-416 | `request_pause` raises the flag of a holder of that thread and no other, `pop_hold` forgets one entry, time changes nothing else |
| QueueProofs.OwnStackReenters | assist/thread_queue.py:193-212 | a call re-enters, changing nothing, if and only if it comes from the holder's own stack for the holder's thread |
| QueueProofs.PromotionMoves | assist/thread_queue.py:384-408 | each background waiter of the thread moves behind the user waiters, every other stays, nobody is lost, and all are notified if anybody moved |
| QueueProofs.GrantedWithinItsIndex | assist/thread_queue.py:384-408 | over any run a user-tier waiter stays in the user tier, its index never grows, and each grant moves it up: it is granted after at most its index many other grants |
| QueueProofs.PromotionIsStable | assist/thread_queue.py:390-408 | promotion keeps user waiters in place, keeps the order of the promoted and of those left, and leaves the holder alone |
| QueueTurns.CapBoundsEveryTurn | assist/thread_queue.py:269-371 | over every run, for any number of pauses, `pop_hold`s and seeded re-acquires, the whole active time of a turn never exceeds its cap, once more for each time it was paused after its handle had been force-released, plus the timers' lateness once per slice |
| QueueTurns.SeedIsTimeHeld | assist/thread_queue.py:269-382 | over every run waiting and paused time add nothing: the seed carried across a pause is exactly the time held since a force-released handle was last paused, all of it if none was |
| QueueTurns.TicksPerSlice | assist/thread_queue.py:325-371 | over every run re-arming ticks of one slice times the quantum stay below what the cap had left |
| QueueTurns.CarryIsExact | assist/thread_queue.py:276-293 | `pop_hold` returns the time held since a carry was last lost if and only if the handle was not force-released, or held nothing |
| QueueTurns.PauseDecidedBeforeExpiryDodgesTheCap | assist/thread_queue.py:276-342 | the extra cap is used: a run in which a turn with a 10 second cap holds the slot for 20 seconds, because its pause was flagged before the cap expired its handle |
| ThreadQueue.ThreadAffinityQueue.Enter | assist/thread_queue.py:193-246 | first section of `acquire`: the state becomes what the step function says; re-entry only by the holder on its own stack |
| ThreadQueue.ThreadAffinityQueue.Recheck | assist/thread_queue.py:218-240 | one evaluation of the wait loop: take the slot, give up, or sleep, exactly as the step function decides |
| ThreadQueue.ThreadAffinityQueue.Exit | assist/thread_queue.py:276-293 | end of the block: active time is persisted only by the holder, then the slot is released and everybody notified |
| ThreadQueue.ThreadAffinityQueue.ReleaseIfHolder | assist/thread_queue.py:295-308 | vacates the slot if and only if the handle still holds it |
| ThreadQueue.ThreadAffinityQueue.OnTick | assist/thread_queue.py:310-362 | the timer callback: stale, expiring, or re-arming, exactly as the step function decides |
| ThreadQueue.ThreadAffinityQueue.PopHold | assist/thread_queue.py:373-382 | returns the persisted time, zero if none, and forgets it |
| ThreadQueue.ThreadAffinityQueue.Promote | assist/thread_queue.py:390-408 | the in-place loops over the background queue compute the stable partition |
| ThreadQueue.ThreadAffinityQueue.RequestPause | assist/thread_queue.py:410-416 | flags the holder's handle if its thread is the one asked for; nothing else changes |
| ThreadQueue.Handle.NextTickDelay | assist/thread_queue.py:364-371 | the smaller of quantum and remaining time, never negative |
| DomainManager.FindFreshName | assist/domain_manager.py:76-92 | the name search ends, at the first candidate that does not read as taken; fresh if the existence checks work |
| DomainManager.FreshIndex | assist/domain_manager.py:76-92 | such a candidate exists because the candidates are distinct and branches are finite |
| DomainManager.SyncLeavesMainAlone | assist/domain_manager.py:427-477 | whatever fails, `sync` leaves main exactly where it was, but for two cases stated on the state before: the abort of a rebase of main puts it where that rebase began, and a failed read of HEAD on main with edits to commit puts one commit on it |
| DomainManager.SyncCanCommitOnMain | assist/domain_manager.py:436-453 | such a commit on main, with reading HEAD as the only failing command, reported as success |
| DomainManager.SyncMovesMainForwardExactlyWhen | assist/domain_manager.py:427-477 | main ends at a descendant of its old place if and only if it is not the case that a rebase of main is aborted whose recorded start does not contain main |
| DomainManager.SyncAnchorsWork | assist/domain_manager.py:427-453 | a `sync` that succeeds, and leaves no rebase un-aborted, has all edits in a commit that is or follows the one HEAD was at, and ends on a branch other than main exactly when HEAD was read or was on one |
| DomainManager.SyncSucceedsExactlyWhen | assist/domain_manager.py:427-477 | `sync` reports no error if and only if it left a rebase that it could not abort, or the thread branch could be made where one was needed and what there was to commit was committed |
| DomainManager.FetchMovesMainForward | assist/domain_manager.py:498-537 | main ends at the server's main if it is behind, is not read as checked out, and the fetch and both commands work, else where it was; the tracking ref moves with the fetch, and nothing else at all |
| Merge.StrandedExactlyWhen | assist/domain_manager.py:539-685 | for every repository and every plan whose recovery commands work, HEAD is on main after `merge_to_main` exactly when: the checks stop and it was there; or a stuck rebase of main is aborted; or the rebase fails on main and its abort does not leave HEAD detached; or the rebase works, the name that was read is no branch, and main is checked out or HEAD was on it |
| Merge.ThreadIsNeverStranded | assist/domain_manager.py:580-685 | started on a named branch other than main, every exit leaves HEAD off main with the thread branch in place; on a fresh branch at main if and only if the squash commit is in main |
| Merge.DetachedMergeIsStranded | assist/domain_manager.py:539-685 | started detached, a merge that reaches its checkout always ends on main |
| Merge.DetachedMergeExample | assist/domain_manager.py:539-685 | such a merge exists with no failing command |
| Merge.MainMovesForwardExactlyWhen | assist/domain_manager.py:580-685 | for every repository and plan, main ends at a descendant of its old place if and only if the merge neither aborts a rebase of main whose start does not contain main, nor resets main, or rebases it under an unread HEAD, while the server's main does not contain it |
| Merge.CheckedMergeMovesForward | assist/domain_manager.py:596-610 | with a working `rev-list` only that abort is left, read HEAD or not |
| Merge.UncheckedMergeRewinds | assist/domain_manager.py:596-635 | a merge with a failing `rev-list` alone that drops an unpushed commit from main |
| Merge.SquashHasTheBranchTree | assist/domain_manager.py:625-665 | a successful merge puts one commit on the fetched origin/main whose tree is the rebased thread branch's, and goes on with a fresh branch there |
| Merge.WindowShape | assist/domain_manager.py:625-665 | in the protected window only main moves, to origin/main and then to one squash commit |
| Merge.WindowCompletesExactlyWhen | assist/domain_manager.py:625-665 | the window completes if and only if its commands work, the rebased branch differs from origin/main, and the fresh name is free |
| Merge.MergeSucceedsExactlyWhen | assist/domain_manager.py:580-665 | a merge from a thread branch succeeds if and only if the checks and the rebase let it through and that window completes |
| Merge.MergeRaises | assist/domain_manager.py:580-623 | which error a merge raises, each exactly when: nothing to merge, an unpushed merge, a listed conflict on the branch that was read; a failed command otherwise |
| Publish.PushNeverOverwrites | assist/domain_manager.py:694-722 | a push succeeds if and only if the server's main is fetched, is below local main, and still is when the push arrives; then the server is at local main; one that fails leaves the server alone and says which of the two it was |
| Publish.PublishedWork | assist/domain_manager.py:746-782 | a successful `merge_and_push` with work to merge leaves the server's main at the squash commit |
| Publish.PendingWorkIsPublished | assist/domain_manager.py:746-776 | a click with nothing of its own to merge reports success if and only if there was pending work, its push worked and HEAD was not read on main; the server is then at main |
| Publish.SuccessPublishesMain | assist/domain_manager.py:746-782 | any click that succeeds and does not rewind main leaves on the server all that was on main, pending work included |
| Publish.ClickOutcome | assist/domain_manager.py:746-782 | what one click comes to, decided by what is known before it: the merge of this thread on top of the pushed work, the push alone, or an error with main where it was |
| Publish.ClickWithWork | assist/domain_manager.py:746-782 | a click with work to merge succeeds if and only if the merge does and so does the push of what it made; a merge that raises is passed on as it is |
| Publish.ClickRaises | assist/domain_manager.py:763-773 | the errors before that: an overtaken push, HEAD on main, a failed command |
| Publish.PublishMovesMainForwardExactlyWhen | assist/domain_manager.py:746-782 | `merge_and_push` moves main to a descendant if and only if it does not reach a merge that rewinds it |
| Publish.OpMovesMainForwardExactlyWhen | assist/domain_manager.py:427-782 | each of the host's operations, from every well-formed repository and whatever fails, moves main to a descendant if and only if its guard above is false |
| Publish.MainNeverLosesACommit | assist/domain_manager.py:427-782 | over every run, with agents that do anything in the clone but move main and a server that moves at will, no commit leaves main in any stretch without such an operation |
| Publish.RewindingLosesACommit | assist/domain_manager.py:427-782 | and every such operation of a run takes main's tip off it |
| Publish.CheckedOpNeverRewinds | assist/domain_manager.py:427-782 | no operation does where no rebase of main is stopped half-way and `rev-list` works |
| Publish.SyncCanRewindMain | assist/domain_manager.py:436-453 | both are needed: a run with no failing command in which an agent leaves a rebase of main, a fetch moves main and the next `sync` takes it back |
| Clone.Clone.EnsureThreadBranch | assist/domain_manager.py:95-128 | branches off main or a detached HEAD, and only then |
| Clone.Clone.Sync | assist/domain_manager.py:427-453 | the sequence of commands does what the specification function says |
| Clone.Clone.MergeToMain | assist/domain_manager.py:539-685 | checks, fetch, rebase, window and recovery, step by step, do what the specification function says |
| Clone.Clone.PushMain | assist/domain_manager.py:694-722 | fetch, ancestry check and push do what the specification function says |
| Clone.Clone.MergeAndPush | assist/domain_manager.py:746-782 | pending push, merge and push do what the specification function says |
| Clone.Clone.CreateTimestampedBranch | assist/domain_manager.py:64-92 | creates the fresh name at the given commit |
| KeyedStore.LoadRaw | assist/keyed_store.py:53-72 | records come back under their own keys, the last one of a key winning; dirty exactly when an entry was malformed |
| KeyedStore.ReadBack | assist/keyed_store.py:53-79 | reading back what was written under the records' own keys gives the same map and nothing to clean |
| EgressProofs.KeyInjective | assist/egress/store.py:48-49 | for colon-free hosts the string key determines thread, host and port |
| EgressProofs.ProxyRefinesTheRule | dockerfiles/egress-proxy.py:114-132 | for every history whose failing writes fail closed, any address map and any later time, the proxy approves a target only if the thread behind the address holds a live grant for it, and also if, when the projection is present and within its size limit |
| EgressProofs.ApprovedIsGranted | dockerfiles/egress-proxy.py:104-132 | one direction, for any projection in step |
| EgressProofs.GrantedIsApproved | dockerfiles/egress-proxy.py:89-132 | the other direction |
| EgressProofs.InSyncExactlyWhen | assist/egress/store.py:156-193 | after a written request file the projection is in step if and only if it could be rewritten or removed, or already said so |
| EgressProofs.StaleProjectionHonoursARevokedGrant | assist/egress/store.py:156-193 | the exception occurs: a revoked grant that the proxy still honours |
| EgressProofs.CapsAndAnnouncements | assist/egress/store.py:199-268 | from an empty store never more than three requests pending per thread and ten in all, and announcements of a key never exceed the decisions recorded on it, by a `resolve` that returned or by one that raised with its record written |
| EgressProofs.AnnouncedPerSuccess | assist/egress/store.py:216-268 | where no projection write raises under a decision on the key, announcements never exceed the successful resolves |
| EgressProofs.OverAnnouncedExactlyWhen | assist/egress/store.py:216-268 | where one does: after any history, a decision and a batch announce more than was returned if and only if the record was written, the projection was not, and the grant has not expired |
| EgressProofs.AnnouncedWithoutSuccess | assist/egress/store.py:216-268 | such a run from an empty store: `resolve` never returned and the approval is announced |
| EgressProofs.DeclineAwaitsAnnouncement | assist/egress/store.py:161-171 | an unannounced decline survives every prune until announced, overwritten or its thread is removed |
| EgressProofs.LiveGrantsAreTheRules | assist/egress/store.py:287-290 | `live_grants` lists exactly the live grants of the ideal store |
| EgressProofs.DecisionLasts | assist/egress/store.py:216-235 | over every run that fails closed: an hour decision with no later one lets the proxy approve only within one hour of it; a decision that nobody takes back is approved for as long as it lasts, an always decision for ever, whenever the projection is present and within its size |
| EgressProofs.DecidedExactlyWhen | assist/egress/store.py:216-235 | which decisions are taken, and the record each makes |
| EgressProofs.AcceptedExactlyWhen | assist/egress/store.py:199-214 | a request is put on file if and only if it is below both caps and the file is written |
| EgressProofs.RevokedExactlyWhen | assist/egress/store.py:237-247 | which grants are revoked, and that they are then gone |
| EgressProofs.AnnouncedExactly | assist/egress/store.py:249-268 | which decisions a batch announces and marks |
| EgressProofs.PrunedExactly | assist/egress/store.py:161-171 | what a mutation drops: expired approvals, and announced declines older than seven days or of unreadable age |
| EgressProofs.RemovedThreadIsForgotten | assist/egress/store.py:270-278 | no record of the thread is left, and pending requests of others stay |
| EgressProofs.NextKeepsInv | assist/egress/store.py:119-290 | every operation keeps the agreement of the pruned store with the ideal one |
| EgressFiles.EgressStore.Mutate | assist/egress/store.py:156-193 | prune, replace the request file, then the projection or its removal, each of which may fail |
| EgressFiles.EgressStore.AddPending | assist/egress/store.py:199-214 | refused at a cap, else the request replaces its key |
| EgressFiles.EgressStore.Resolve | assist/egress/store.py:216-235 | only a pending request is decided |
| EgressFiles.EgressStore.Revoke | assist/egress/store.py:237-247 | removes an approved record |
| EgressFiles.EgressStore.TakeUndispatched | assist/egress/store.py:249-268 | marks the undispatched decisions of a thread and returns their records in file order |
| EgressFiles.EgressStore.RemoveThread | assist/egress/store.py:270-278 | drops every record of a thread |
| Spans.AppendOwnedTiles | edd/prompt_census.py:511-520 | appending owned text to a tiling tiles the longer text and tags each new character |
| Spans.AppendSegmentTiles | edd/prompt_census.py:523-539 | the same for an interval with its owner, merged or not |
| Spans.TagAt | edd/prompt_census.py:511-539 | in a tiling a character has the tag of the segment that contains it |
| Spans.AppendOwnedMerges | edd/prompt_census.py:511-520 | neighbours that touch keep different owners or sources |
| Spans.AppendSegmentMerges | edd/prompt_census.py:523-539 | the same, merged or not |
| PythonRepr.ScansEscape | edd/prompt_census.py:549-562 | at an escape written by `repr` the scanner stops exactly at its end; the octal branch is not taken |
| PythonRepr.ReprCharacterRanges | edd/prompt_census.py:542-565 | one range per character, in order and contiguous; the length check cannot fail |
| PythonRepr.RangesReadBack | edd/prompt_census.py:542-565 | range k, read back from the rendered text, is exactly the escape of character k |
| PythonRepr.ScanStep | edd/prompt_census.py:551-562 | one turn of the scanner on any text, octal runs and the IndexError of a dangling backslash included |
| Template.RenderOwnedTemplate | edd/prompt_census.py:626-655 | the loop computes the rendering, or the first of its three errors |
| Template.RenderTiles | edd/prompt_census.py:626-655 | if every nested field in use tiles its value, the segments tile the rendered text and every character has the tag of its literal or field |
| Template.RenderTilesExactlyWhen | edd/prompt_census.py:626-655 | for fields without empty segments the result is tiled if and only if every nested field in use tiles its value; the check at 643-645 asks for less |
| Template.EmptyOwnershipIsLost | edd/prompt_census.py:641-652 | an empty segment list for a non-empty value passes and loses its ownership |
| Template.RenderFailsExactlyWhen | edd/prompt_census.py:632-645 | a template renders if and only if nothing is wrong with any piece, and fails with what is wrong with the first such piece |
| Replacement.Advance | edd/prompt_census.py:584-588 | over any spans that rise to the end of the text before, holes or not, the cursor stays in bounds and stops at the span that labels the character |
| Replacement.ReplaceBlocks | edd/prompt_census.py:580-599 | every block is found or the census stops; what is attributed is tiled, each escape with its character's tag |
| Replacement.ReplacementSegments | edd/prompt_census.py:568-623 | from any such spans, the attributed text is tiled if and only if it is not the case that a fixture is placed behind an empty last block, and then has a hole; either way every character has the specified label |
| Replacement.EscapeHasItsCharactersLabel | edd/prompt_census.py:580-603 | every code point of an escape in the re-serialised blocks has the label that its character had in the text before; what stands before a block's first character is the rider's |
| Replacement.ReplacedLabel | edd/prompt_census.py:603-623 | behind the last block the recorded place has its fixture's label and the rest the rider's |
| Serialized.FoundAtOwnPlaces | edd/prompt_census.py:575-598 | over the serialised form made of keys and values, every value is found at its own place if and only if none occurs between the closing quote of the one before and its own opening quote |
| Serialized.TextLikeItsKey | edd/prompt_census.py:575-598 | a block whose text is the word of its first key is found at the key |
| Content.SkillListing | edd/prompt_census.py:685-704 | the loops over skills and pieces build the specified listing |
| Content.ListingTiled | edd/prompt_census.py:685-704 | the listing is tiled; bullets, colons and line ends are the formatter's, each name and description its skill's |
| Content.ContentTiles | edd/prompt_census.py:672-811 | whatever a middleware contributes is attributed without gap or overlap, each character to who writes it (template, formatter, skill, recorded memory, path, place, or the middleware's own source), or the census stops |
| Content.FitTiles | edd/prompt_census.py:796-811 | moving the segments behind a blank separator keeps the tiling and gives the separator to the owner |
| Content.ContentSegments | edd/prompt_census.py:672-811 | the branches, and the methods and loops they call, compute the specified segments |
| Content.AttributableExactlyWhen | edd/prompt_census.py:672-811 | the census attributes what a middleware contributes if and only if its scans and recorded memories say what that is, and the text is just that behind a blank separator |
| Provenance.PlacePrompts | edd/prompt_census.py:838-861 | fails if and only if a prompt runs into one placed before it that has another owner or source; else the spans are the first occurrences of exactly the prompts that no placed one was in the way of, and every prompt that occurs is covered by its own owner and source |
| Provenance.PlaceBase | edd/prompt_census.py:863-876 | the base prompt's first occurrence is added if and only if it occurs and no span overlaps it |
| Provenance.SortMakesChain | edd/prompt_census.py:878 | sorting disjoint spans by start puts them in order |
| Provenance.LongestFirst | edd/prompt_census.py:838-843 | prompts are placed longest first, those of one length in the order they came |
| Provenance.FillGaps | edd/prompt_census.py:879-903 | succeeds if and only if every non-blank character lies in a span, and then tiles the text with those spans and blank composer text |
| Provenance.InitialSpans | edd/prompt_census.py:838-903 | succeeds if and only if no two prompts clash and every non-blank character lies in a placed prompt or the base prompt; every character then has the label of the prompt it lies in, or the composer's |
| Provenance.InitialAttributableMeans | edd/prompt_census.py:838-903 | that condition in direct form: no clash, and every non-blank character lies in the first occurrence of a placed prompt, or of the base prompt if every placed prompt is beside it |
| Provenance.InitialLabelMeans | edd/prompt_census.py:838-903 | and the labels: the placed prompt's owner and source, the base prompt's, or else the composer's |
| Transitions.Append | edd/prompt_census.py:918-933 | an appending transition keeps every label and adds that of the expected writer of each new character; holes stay |
| Transitions.Replace | edd/prompt_census.py:918-940 | a replacing transition succeeds exactly when its text is attributable, leaves the labels that the escapes or the writers have, and leaves a hole exactly when it loses ground |
| Transitions.NewTextIsItsOwn | edd/prompt_census.py:906-933 | what a middleware contributes has the sources that write it and the middleware as owner |
| Transitions.OldTextKeepsItsOwner | edd/prompt_census.py:906-940 | what the rider prints again keeps the owner it had |
| Transitions.LostGroundExample | edd/prompt_census.py:568-623 | such a replacement: a text block and an empty one with a recorded place behind them |
| Transitions.PromptProvenance | edd/prompt_census.py:814-975 | for every chain of appends and replacements: it succeeds if and only if the chain is unbroken, the final text is the chain's last, the initial text is attributable and so is each transition; each character of the final text then has the label of who wrote it, carried through every step; the checks at 954-961 pass if and only if the last replacement did not lose ground; then the spans tile the final text |
| Transitions.EndsBehindMeans | edd/prompt_census.py:940-961 | that condition in direct form: some transition loses ground and all after it append |
| Layout.BlockLayout | edd/prompt_census.py:105-130 | the loops build the specified layout |
| Layout.SourcesOfCharacters | edd/prompt_census.py:114-120 | over a tiling, the sources of a non-empty block are exactly those of its characters |
| Layout.ItemMeans | edd/prompt_census.py:105-130 | an item names its block's place, the digest of what stands there and its sources once each |
| Layout.CheckLayout | edd/prompt_census.py:133-149 | accepts exactly the layouts of some text blocks that make up the text |
| Layout.IsOrderedSubset | edd/prompt_census.py:227-230 | true if and only if the values occur among the candidates at increasing positions |
| GeoProofs.RunKeepsClaims | assist/geo/provisioner.py:98-215 | from start-up on, in every interleaving: a slug has an unfinished add or remove job exactly when it is importing, a transit job exactly when in `_transit_active`, never two; and a ready region was ready at startup or had an add succeed since it was last removed |
| GeoProofs.NextKeepsClaims | assist/geo/provisioner.py:98-174 | each step keeps the claims exact |
| GeoProofs.NextKeepsValidated | assist/geo/provisioner.py:144-174 | each step keeps ready regions validated, failed removals included |
| GeoOutcomes.RequestDecides | assist/geo/provisioner.py:98-141 | a request becomes a job if and only if: an add of a proposed region that is neither importing nor ready, a removal of one on file that is not importing, a transit of a ready one without a transit job |
| GeoOutcomes.AcceptedRequest | assist/geo/provisioner.py:107-141 | what an accepted request claims, and that its job is last in line |
| GeoOutcomes.RefusedRequest | assist/geo/provisioner.py:98-134 | a refused one changes nothing, but drops a moot proposal |
| GeoOutcomes.RefusalSays | assist/geo/provisioner.py:98-134 | each refusal's reason, exactly when |
| GeoOutcomes.EndDecides | assist/geo/provisioner.py:144-174 | the end of a job, by its kind and success, and that no other region changes |
| GeoOutcomes.ClaimHolds | assist/geo/provisioner.py:98-210 | an unfinished add or removal stays claimed through every event, its region touched only by a notice or a transit of before |
| GeoOutcomes.RemovalOutcome | assist/geo/provisioner.py:98-174 | over every run, from a removal's request to its end: success takes the region out; failure gives it the very state back that it had at the request, with its flags but for a notice or a transit of before that was finished meanwhile |
| GeoOutcomes.AddOutcome | assist/geo/provisioner.py:98-174 | over every run, from an add's request to its end: ready and unannounced if and only if it succeeded, else failed |
| GeoOutcomes.WorkerAnnounces | assist/geo/provisioner.py:177-197 | the worker posts if and only if there is a proposal with a thread and it is reached, and its bookkeeping marks a success as delivered, not a failure |
| GeoOutcomes.PendingAreDelivered | assist/geo/provisioner.py:199-210 | which held notices `deliver_pending` posts, and that all others stay |
| GeoOutcomes.CrashDecides | assist/geo/provisioner.py:212-215 | what a death and the next start leave |
| GeoDelivery.PostsArePaid | assist/geo/provisioner.py:169-197 | notices posted for a slug never exceed proposals recorded for it, but for one more each time the process dies between a post and its bookkeeping |
| GeoDelivery.ADeathCanPostTwice | assist/geo/provisioner.py:177-215 | that one more happens: one proposal, one death, two posts |
| GeoDelivery.OwedNoticesAreOnFile | assist/geo/provisioner.py:117-210 | a run keeps the proposal of every unfinished add and of every ready region that owes its notice on file if and only if it never settles a failure notice while another add of that region is unfinished |
| GeoDelivery.PatientAddsKeepTheirProposals | assist/geo/provisioner.py:107-197 | what callers can do: if no add is accepted for a region whose failure is still being announced, no such settlement happens |
| GeoDelivery.AnAddCanStrandANotice | assist/geo/provisioner.py:107-197 | a run from start-up with such an add that ends with a ready region owing a notice that can never be posted |
| Provisioner.Provisioner.Submit | assist/geo/provisioner.py:98-141 | check, claim and enqueue in one section, with every refusal |
| Provisioner.Provisioner.EndJob | assist/geo/provisioner.py:144-174 | what the end of a job writes |
| Provisioner.Provisioner.PostNotice | assist/geo/provisioner.py:177-191 | the worker's announcement, held or posted |
| Provisioner.Provisioner.SettleNotice | assist/geo/provisioner.py:192-197 | its bookkeeping, as a step of its own |
| Provisioner.Provisioner.DeliverNow | assist/geo/provisioner.py:177-197 | hold, or post and clear |
| Provisioner.Provisioner.DeliverPending | assist/geo/provisioner.py:199-210 | each held notice of the listed proposals, READY or FAILED |
| Provisioner.Provisioner.Restarted | assist/geo/provisioner.py:212-215 | jobs and in-memory claims die; stuck entries fail |
| Provisioner.RegionRegistry.Update | assist/geo/registry.py:94-104 | changes one record, or writes nothing if it is missing |
| Provisioner.RegionRegistry.Reconcile | assist/geo/registry.py:121-133 | flips exactly the importing records to failed |
| RunProofs.OpSound | assist/run_service.py:163-434 | every operation keeps ids and non-empty dispatch keys unique, moves each run along `_TRANSITIONS` in place, and adds runs only as pending |
| RunProofs.HistoryEvolves | assist/run_service.py:124-434 | the same throughout every history |
| RunProofs.StatusesAreFinal | assist/run_service.py:124-138 | over any stretch of a history a terminal status is final, but for interrupted, which can only be cancelled |
| RunProofs.RecreateExactlyWhen | assist/run_service.py:217-230 | creating again with the same dispatch key and work, after any other operations, returns that run and adds none, if and only if no optional parent field was the empty string |
| RunProofs.EmptyParentConflicts | assist/run_service.py:217-230 | such a request, which conflicts with itself |
| RunProofs.ReplaceLeavesOne | assist/run_service.py:231-264 | a replacing create leaves the new run as the only pending one, or changes nothing |
| RunProofs.LimitsHold | assist/run_service.py:239-248 | a create never takes a thread beyond the limits it was given |
| RunProofs.ReimportExactlyWhen | assist/run_service.py:388-434 | a successful import can be repeated at once without effect, if and only if no record has an empty optional field |
| RunProofs.EmptySenderConflicts | assist/run_service.py:388-434 | such a record, whose second import conflicts |
| RunOutcomes.CreateExactlyWhen | assist/run_service.py:163-264 | a create adds a run if and only if its arguments are well-formed, its key is free, there is room and the write works; the run added and what happens to the others; and when a standing run is returned |
| RunOutcomes.CreateRaisesExactly | assist/run_service.py:163-264 | else it raises exactly the first of its defects, in the order they are looked for |
| RunOutcomes.TransitionExactlyWhen | assist/run_service.py:291-341 | when a transition goes through, the patched run it leaves, and the error otherwise |
| RunOutcomes.CancelPendingExactlyWhen | assist/run_service.py:351-362 | succeeds if and only if the run is there, pending, and the write works; it then cancels that run and no other |
| RunOutcomes.ImportExactlyWhen | assist/run_service.py:388-434 | an import stops at the first record that is not the thread's or conflicts with its run, and changes nothing; else every record has its run, and only records not there before add one |
| RunService.RunService.Create | assist/run_service.py:163-264 | validation, dispatch key, cancellation, limits and write, in that order, with every error |
| RunService.RunService.Transition | assist/run_service.py:291-341 | same-status rewrite, checked move, or error |
| RunService.RunService.Cancel | assist/run_service.py:347-349 | a transition to cancelled |
| RunService.RunService.CancelPending | assist/run_service.py:351-362 | only a pending run is cancelled |
| RunService.RunService.ImportLegacy | assist/run_service.py:388-434 | the loop imports each record once or stops without writing |
| RecordStore.PerThreadJsonStore.Add | assist/record_store.py:73-82 | appends below the cap |
| RecordStore.PerThreadJsonStore.Update | assist/record_store.py:84-94 | changes the first record with the id and no other |
| RecordStore.PerThreadJsonStore.Remove | assist/record_store.py:96-102 | drops the records with the id and keeps every other as often as it was there, or reports none |
| RecordStore.WithoutKeepsOrder | assist/record_store.py:96-102 | what is kept stays in its order |
| Polyline.DecodePolyline | assist/tools.py:737-768 | the nested loops compute the points of the string, or none if it is cut short |
| Polyline.DecodeValue | assist/tools.py:753-762 | the bit loop, with `|=` and shifts, computes one value |
| Polyline.OrAdds | assist/tools.py:757 | setting bits above those in use adds them |
| Polyline.DecodesExactlyWhen | assist/tools.py:749-768 | a string decodes if and only if it is empty or its last character ends a value, and an even number of values end |
| Polyline.RoundTrip | assist/tools.py:737-768 | decoding the published encoding of any list of coordinate pairs gives the list back |
| Polyline.EncodesDecoded | assist/tools.py:737-768 | encoding what a shortest string decodes to gives the string back |
| Retention.Database.DeleteThreadInBatches | assist/retention.py:54-73 | wherever it dies, what is left stays discoverable; finished, the thread has no rows; left alone it ends |
| Retention.Database.PurgeOrphanedCheckpoints | assist/retention.py:138-201 | interrupted anywhere it loses nothing of a live thread and keeps rows discoverable; left alone it clears exactly the dead threads with checkpoints |
| Retention.ClearedExactlyWhen | assist/retention.py:138-201 | no row of a dead thread is left if and only if every dead thread with writes had checkpoints |
| Retention.Database.SweepAgainAndAgain | assist/retention.py:138-201 | sweep after sweep, each cut short anywhere, with rows written and threads ending in between: no row is lost while its thread lives, rows stay discoverable, and the first sweep left alone leaves no row of a dead thread |
| Retention.PruneToN | assist/retention.py:76-135 | deletes the outdated threads in rank order, skipping those whose deletion raises, with both early returns and the ValueError |
| Retention.OutdatedIsOne | assist/retention.py:112-125 | what is outdated does not depend on listing order, and is everything but the most recent N by time, then name |
| Retention.SurvivingMeans | assist/retention.py:126-135 | reported are exactly the doomed whose deletion does not raise, in rank order |
| Rollback.InvokeWithRollback | assist/checkpoint_rollback.py:81-184 | at most 1 + depth * retries invocations; failure j resumes from index 1 + (j-1) div retries, with no input checkpoint newer than that; the original error surfaces exactly when no rollback is left; the trailing RuntimeError is reached if and only if depth * retries is negative, or retries is zero with depth at least two and a long enough turn |
| Rollback.NoRetriesHideTheError | assist/checkpoint_rollback.py:138-184 | the trailing error does come up: no retries, two depths, one failure |
| Rollback.Truncate | assist/checkpoint_rollback.py:119-127 | the loop cuts the history behind the first input checkpoint |

## Left out

- Docker, subprocesses, HTTP, the agent graph and sqlite internals: foreign effects, represented by inputs that decide how each call ends.
- JSON encoding and file-system errors beyond a write that fails and leaves the old file.
- Queue statistics (`peek_holder`, `waiter_count`, `current_handle`) and logging: read-only.
- Repositories without a remote, commit-message text, pushing thread branches, untracked files and diff contents of assist/domain_manager.py.
- EgressStore host vetting, the allow list and the socket loops of dockerfiles/egress-proxy.py: only the grant decision is modelled.
- Prompt hashes, scenario names and event records of edd/prompt_census.py: the text chain is modelled, the hash chain only rejects more.
- Serialized.FoundAtOwnPlaces: that Python's own list representation has this form of keys and values is not proved; what `ast.literal_eval` reads is an input.
- Registry `touch`, display names, bounding boxes and message texts of the provisioner: no decision reads them.
- RunService: thread-path validation, creation times, resume fields, pending text, multitask strategy and delegate URLs are carried along by the code and decide nothing here.
- Retention.PruneToN: what `hard_delete` removes belongs to the thread manager, which is not part of this model.
- Polyline.DecodePolyline: the division by the precision factor and non-string input.
- assist/agent.py, assist/thread.py, web, voice and mail front ends: wiring.
