# Verification of spinclass's authority and merge protocols

spinclass runs coding agents in git worktrees and decides what each may do. This
Dafny project models the parts of it on which those decisions rest and proves
what they promise.

- **Profile grants.** A grant record has a canonical text with a strict parser
  (`Grants.dfy`, `GrantText.dfy`) and an act text the operator's card signs
  (`Acts.dfy`); a profile transition has both as well (`Transitions.dfy`). A walk
  climbs `prev` links from a presented grant to a card-signed root (`Chain.dfy`);
  `ChainTheorems.dfy` proves what an accepted walk means. `Readings.dfy` proves
  what the texts say, line by line. `Clocks.dfy` shows that the calendar the others
  are given can exist.
- **Grant import.** A batch is deduplicated and ordered (`ImportOrder.dfy`),
  checked, stored and bound (`GrantImport.dfy`) in a record store
  (`GrantStores.dfy`); `ImportTheorems.dfy` proves which batches are admitted.
- **The merge queue.** `MergeQueue.dfy` is a state machine whose steps are the
  code's critical sections: the handler under the queue lock, taking the job
  slot, the launch or failure of the job (for a dequeued entry under the queue
  lock), the end of its closure, the clearing of the slot, the completion callback
  and its drains. `MergeQueueTheorems.dfy`,
  `MergeAttestations.dfy` and `MergeClaims.dfy` prove what every interleaving keeps, and
  `MergeServer.dfy` proves that the critical sections as written are those steps.
- **Restarts and handles.** `Restart.dfy` interleaves unlocked reads and locked
  updates of a session record; `Handles.dfy` runs grant, accept and release over
  the holders of a session, and `HandleTheorems.dfy` proves who may act and what
  each command does.
- **Formats and small state.** `SshSig.dfy` reads OpenSSH signature blobs
  (PROTOCOL.sshsig sections 1 to 3; strings as in section 5 of RFC 4251);
  `Sweatfile.dfy` merges configuration layers; `Harden.dfy` counts registered
  directories; `LineWriter.dfy` splits a stream into lines. `Text.dfy` holds the
  string functions they share.

Cryptography is a parameter: the digest, the card's and the links' signature
checks, public-key parsing and base64 are functions given to the model, and a
theorem that needs a property of one (a collision-free digest, a verifier that
binds a signature to one text, a key that parses back) requires it by name.
The calendar is a pair of functions with the four properties of
`Grants.ValidClock`; instants are nanoseconds and the layout drops the fraction
of a second. Disk and process failures are nondeterministic choices, except in a
store declared reliable. A string is
a sequence of runes; byte limits are counted in UTF-8.

## What does not hold, and exactly when it does

The model follows the code where the code falls short of a stated promise. Each
case has a concrete input or run and the exact condition.

- *A queued merge is always looked after.* `job.Start` outside the queue lock
  takes the slot before it allocates the completion wake, and when the allocation
  fails it clears the slot without a callback. A merge queued in that window is
  stranded (`StrandingRun`), and no other step strands one (`StrandedExactly`).
  Where calls are served one at a time, as FDR 0025 says of MCP over stdio, none
  is (`UninterruptedRunsStrandNone`).
- *A claim is settled once.* True of asynchronous merges and checks. A blocking
  merge whose job cannot be started settles in `runDetachableMerge`'s deferred
  call and again after it went on inline, so its landing leaves the attestation
  buffered for a second landing (`LandingSpendsIffHeld`,
  `TwoLandingsOnOneAttestation`).
- *A failed merge drains what is queued behind it.* Its callback does, but
  another callback that runs first pops the head and starts it. That is the only
  step that overtakes a failure (`OvertakenExactly`), and it is possible exactly
  when the slot is free, a merge is queued, and a callback that drains and one
  that does not are both pending (`CanOvertakeIff`), which takes a job that
  claimed the slot while a callback was pending (`TwoPendingNeedAnEarlyClaim`).
  `CheckOvertakesFailure` is such a run.
- *An undone import leaves every binding as it was.* The undo leaves the index
  without the replaced bindings that did not check out (`BindAll`), so it is as it
  was exactly when every one of them does (`UndoneIsWholeIff`);
  `DanglingBindingIsDropped` fails even on a disk that never does. A store changed
  only through its own operations has no such binding (`StoreStaysConsistent`).
- *A grant can only narrow.* A rights list that names nothing without being
  empty, such as `","`, is recorded as the default `observe,close`, which a
  granter without `close` does not hold (`BlankGrantWidens`). Authority widens in
  exactly that case (`GrantWidensIff`).
- *A restart request is acted on at most once.* The preflight's locked step looks
  at the closing mark and not at the request. So two preflights that overlap both
  announce one request (`OverlapActsTwice`), a withdrawn request restarts
  (`WithdrawnRequestRestarts`), and a newer one is cleared unheard
  (`NewerRequestLost`). A commit gives a first verdict, on a request nothing else
  ended, and ends no other exactly when the record still holds the request it read
  (`FirstVerdictIff`); over a whole run each request ends once exactly when every
  verdict finds its request so (`RequestsEndOnceIff`). *Nothing is re-armed once
  the session is back*, unless the clock was set back (`RearmAfterReturn`,
  `ReturnMarkHoldsIff`).
- *The signed data names one namespace, hash and digest.* For every digest
  `Verify` computes (`VerifiedDataInjective`), and for arbitrary fields shorter
  than 2^32 bytes (`SignedDataInjective`); not beyond, where the length prefix is
  truncated (`LongFieldsCollide`).
- *Layers may be merged in any grouping.* Named arrays may, repeated names and
  all. An append list may not when the middle layer clears it
  (`ListMergeAssociativeIff`).
- *A registered directory covers everything beneath it*, except the root
  directory, which covers only itself (`CoversIffBeneath`).

## Model

| member | source | states |
|---|---|---|
| Text.SortNames | internal/0/profilegrant/grant.go:60-67 | the names of a map in strictly ascending order, each once |
| Grants.RenderCanonicalText | internal/0/profilegrant/grant.go:70-89 | the written text is the header and ten lines of the canonical form |
| Grants.ParseProfiles | internal/0/profilegrant/grant.go:201-222 | the loop over entries accepts and fills the map as the recursive reading of strictly ascending name=digest entries does |
| Grants.ReadValues | internal/0/profilegrant/grant.go:118-141 | the table holds each line's value under its key iff every line passes its key's check |
| Grants.ParseCanonicalText | internal/0/profilegrant/grant.go:99-179 | the parser returns what the specification of accepted texts says, errors included |
| GrantText.ProfilesParse | internal/0/profilegrant/grant.go:201-222 | a valid profile map written in sorted order parses back to itself |
| GrantText.ProfilesRender | internal/0/profilegrant/grant.go:201-222 | an accepted profiles value is the sorted rendering of its map, whose names and digests are valid |
| GrantText.LastCheckIsAboutTheExpiry | internal/0/profilegrant/grant.go:168-177 | once every line passed, the closing comparison fails iff the expiry is spelled in another way |
| GrantText.ParseReadsCanonical | internal/0/profilegrant/grant.go:96-179 | every well-formed grant within the size limit parses back to itself |
| GrantText.ParseExact | internal/0/profilegrant/grant.go:96-179 | a text is accepted as g iff g is well formed, the text is g's canonical text and it is within 4096 bytes |
| GrantText.CanonicalTextInjective | internal/0/profilegrant/grant.go:69-89 | well-formed grants with equal canonical texts are equal, whatever their size |
| Readings.WellFormedIff | internal/0/profilegrant/grant.go:118-179 | a grant is well formed iff its fields are identities, it has a profile, onward is none or grant, and it expires on a whole second of the years 0000 to 9999 |
| Readings.IdentityIff | internal/0/profilegrant/grant.go:186-199 | an identity is a non-empty text of the allowed code points |
| Readings.LessIff | internal/0/profilegrant/grant.go:60-67 | names are ordered by their first differing character, a start before what it starts |
| Readings.CanonicalTextReads | internal/0/profilegrant/grant.go:70-89 | the eleven lines of a canonical text, each with the field it states, profiles and rights in ascending order |
| Clocks.ClockExists | internal/0/profilegrant/grant.go:23-23 | a fixed-length injective spelling of the years 0000 to 9999 with a parser exists, so the calendar's properties are consistent |
| Acts.RenderedLines | internal/0/profilegrant/act.go:101-108 | the loop counts each line's rows at 80 columns, one for an empty line |
| Acts.RenderedLinesAdditive | internal/0/profilegrant/act.go:99-108 | rendered lines of two newline-terminated pieces add up |
| Acts.CheckBudget | internal/0/profilegrant/act.go:69-78 | accepts iff bytes, rendered lines and runes are all within budget |
| Acts.RenderActText | internal/0/profilegrant/act.go:37-80 | the text of `Readings.ActTextReads`, or the refusal of `Readings.ActTextGivenIff` |
| Acts.ActTextInjective | internal/0/profilegrant/act.go:31-80 | equal act texts force equal digest, grantor, grantee, session, profiles, onward, widens and expiry second |
| Acts.ActTextBudget | internal/0/profilegrant/act.go:82-108 | every act text obeys the budgets and pins at most seven profiles |
| Readings.WrappedIs | internal/0/profilegrant/act.go:101-108 | a line takes the fewest rows of 80 columns that hold it, at least one |
| Readings.ActTextReads | internal/0/profilegrant/act.go:41-67 | what the operator reads, line by line: the record widened, the digest, from the grantor, allow the grantee in its session, each profile with its pinned digest, yes iff it may be passed on, until the expiry |
| Readings.ActTextGivenIff | internal/0/profilegrant/act.go:69-135 | an act text is given iff the fields are valid and it fits 4096 bytes, 15 rows and 1200 runes |
| Transitions.ParseTransitionText | internal/0/profilegrant/transition.go:56-98 | the loop and table accept what the specification accepts, errors included |
| Transitions.TransitionParseExact | internal/0/profilegrant/transition.go:55-98 | accepted as tr iff tr is well formed, from differs from to, and the text is tr's within the limit |
| Transitions.TransitionIsNoGrant | internal/0/profilegrant/transition.go:11-21 | no text parses both as a transition and as a grant |
| Transitions.CheckDiff | internal/0/profilegrant/transition.go:118-125 | accepts iff at most six lines, each non-empty, at most 80 runes, printable ASCII or the elision mark |
| Transitions.RenderTransitionActText | internal/0/profilegrant/transition.go:111-147 | the text of `Readings.TransitionActReads`, or the refusal of `Readings.TransitionActGivenIff` |
| Transitions.CheckedTransition | internal/0/profilegrant/transition.go:112-114 | a record whose text parses has the fields read from it, so no field carries a line break |
| Transitions.FullDiffFits | internal/0/profilegrant/transition.go:33-36 | six valid diff lines under a fixed part of the budgeted widths are never refused for size |
| Transitions.TransitionActTextInjective | internal/0/profilegrant/transition.go:105-147 | equal act texts force equal digest, profile, digests, expiry second and every diff line |
| Transitions.ActTextsDisjoint | internal/0/profilegrant/transition.go:126-136 | no grant act text is a transition act text |
| Transitions.SignatureApprovesOneChange | internal/0/profilegrant/transition.go:189-211 | under a binding verifier two verified records with one signature agree on everything but the nonce, and with a collision-free digest are the same record; neither has expired |
| Readings.TransitionWellFormedIff | internal/0/profilegrant/transition.go:55-98 | a transition is well formed iff its fields are identities, it changes something, and it expires on a whole second of the years 0000 to 9999 |
| Readings.TransitionTextReads | internal/0/profilegrant/transition.go:43-53 | the six lines of a transition text, each with the field it states |
| Readings.TransitionActReads | internal/0/profilegrant/transition.go:127-136 | what the operator reads: profile, record, from the old digest, to the new one, the expiry, the diff, the approval |
| Readings.TransitionActGivenIff | internal/0/profilegrant/transition.go:111-160 | a transition act text is given iff the record parses, the diff shows on the prompt and the text fits |
| Readings.RedeemableIff | internal/0/profilegrant/transition.go:189-211 | a record verifies as tr iff its digest names its text, that is the canonical text of the well-formed tr, tr has not expired, and the card signed the act text regenerated with the diff |
| Chain.CheckNarrows | internal/0/profilegrant/grant.go:289-321 | the loop over profile names decides the narrowing relation |
| Chain.ClimbExact | internal/0/profilegrant/grant.go:337-364 | a climb succeeds iff some link is held at its digest, with no widening up to it and nothing held before it |
| Chain.VerifyRecord | internal/0/profilegrant/grant.go:521-555 | accepts iff the digest names the text, which states a live grant, a root and only a root has no parent, and the card signed a root, the link verifier accepts a link |
| Chain.CheckWidens | internal/0/profilegrant/grant.go:479-519 | accepts iff nothing is widened, or a root widens a live root of the same grantee and keeps its names |
| Chain.Walk | internal/0/profilegrant/grant.go:434-473 | the loop terminates and returns what the recursive walk returns |
| ChainTheorems.SoundIff | internal/0/profilegrant/grant.go:479-555 | the checks on one record, spelled out |
| ChainTheorems.NarrowsIff | internal/0/profilegrant/grant.go:281-321 | the narrowing relation, spelled out: made by the parent, from rights it may pass on, for no longer, every profile resting on the parent's |
| ChainTheorems.WalkExact | internal/0/profilegrant/grant.go:431-473 | Walk returns g iff a chain of at most 32 sound records with distinct digests and narrowing edges runs to its one root and the start states g |
| ChainTheorems.EveryLinkIsSigned | internal/0/profilegrant/grant.go:545-552 | every record of an accepted walk below its root has a signature the link verifier accepts for what it states, and the card signed the root |
| ChainTheorems.UnsignedIsRefused | internal/0/profilegrant/grant.go:545-552 | a link whose signature fails and a root the card did not sign are refused |
| ChainTheorems.ChainAttenuates | internal/0/profilegrant/grant.go:281-305 | along a chain nothing has expired, expiries only grow towards the root, and every proper ancestor passes rights on |
| ChainTheorems.ProfilesTraceToRoot | internal/0/profilegrant/grant.go:331-364 | each presented profile is traceable record by record to one of the root's, by equal entries or base chains of at most eight non-widening links |
| ChainTheorems.ProfilesWithinRoot | internal/0/profilegrant/grant.go:306-320 | without base chains the presented profiles are a submap of the root's |
| ChainTheorems.AcceptedGrantIsBacked | internal/0/profilegrant/grant.go:431-473 | what Walk returns is backed by a live root that outlives it, whose regenerated act text the card signed |
| ChainTheorems.StoreCannotSubstitute | internal/0/profilegrant/grant.go:521-529 | with a collision-free digest the presented digest fixes every text of the chain and its length, whatever stores answer |
| ImportOrder.ParseImportBatch | cmd/spinclass/profilegrant_import_cmd.go:266-284 | refused iff some record is no root or does not parse; otherwise the first record of each digest, in order |
| ImportOrder.BatchOfIs | cmd/spinclass/profilegrant_import_cmd.go:266-284 | the batch holds unique digests, exactly the input's, each a parsed root of the input |
| ImportTheorems.BatchKeepsOrder | cmd/spinclass/profilegrant_import_cmd.go:266-284 | the batch is the input's records at rising places, exactly those that no earlier record shares its digest with |
| ImportOrder.OrderWidenedFirst | cmd/spinclass/profilegrant_import_cmd.go:286-313 | terminates; succeeds iff the in-batch widens relation has no cycle; the result is a permutation in which each record follows the one it widens |
| ImportOrder.NoProgressMeansCycle | cmd/spinclass/profilegrant_import_cmd.go:308-310 | a pass that places nothing proves a cycle |
| ImportOrder.OrderedAcyclic | cmd/spinclass/profilegrant_import_cmd.go:286-313 | an order with widened records first exists only when there is no cycle |
| GrantStores.GrantStore.Put | internal/alfa/grantstore/grantstore.go:148-188 | stores only what is new, identical, over what does not verify, or an upgrade to a card-signed root, and does when the disk does not fail; a failure changes nothing |
| GrantStores.GrantStore.Bind | internal/alfa/grantstore/grantstore.go:220-249 | binds only a stored record granted to that grantee, and does when the disk does not fail; a failure changes nothing |
| GrantStores.GrantStore.Unbind | internal/alfa/grantstore/grantstore.go:302-312 | removes the binding; a failure changes nothing |
| GrantStores.GrantStore.Get | internal/alfa/grantstore/grantstore.go:190-215 | returns the record under a digest iff it verifies |
| GrantStores.GrantStore.Current | internal/alfa/grantstore/grantstore.go:279-300 | returns the bound record iff it verifies and names that grantee |
| GrantStores.DigestNameIff | internal/alfa/grantstore/grantstore.go:89-105 | a digest can be stored under iff it is 1 to 200 of the allowed code points without a leading dot |
| GrantStores.EscapedLenIs | internal/alfa/grantstore/grantstore.go:111-120 | a grantee's file name spends three characters on a slash |
| GrantStores.LookupIff | internal/alfa/grantstore/grantstore.go:190-215 | a record is found iff it is stored there, names the digest, and its digest names its text, which parses |
| GrantStores.CurrentIff | internal/alfa/grantstore/grantstore.go:279-300 | a record is current iff the grantee is bound to it, it is found and grants to that grantee |
| GrantStores.StorableIff | internal/alfa/grantstore/grantstore.go:148-188 | what may be stored over what: over a record that is found only the same again, or a card-signed root over one that is not |
| GrantStores.StoredIsFound | internal/alfa/grantstore/grantstore.go:148-249 | what was stored is found, and is current for a grantee bound to it |
| GrantStores.PutKeeps | internal/alfa/grantstore/grantstore.go:142-148 | storing loses no record and never replaces a card signature |
| GrantStores.StoreStaysConsistent | internal/alfa/grantstore/grantstore.go:217-312 | Put, Bind and Unbind leave no dangling binding |
| GrantImport.BindAll | cmd/spinclass/profilegrant_import_cmd.go:226-264 | binds every candidate, or leaves the index without the replaced bindings that did not check out, whichever bind failed; no other grantee's binding moves; on a sound disk the failing candidate is the first that cannot be bound |
| GrantImport.UndoneIsWholeIff | cmd/spinclass/profilegrant_import_cmd.go:226-264 | the index an undo leaves is the one before iff every binding it replaced checks out |
| GrantImport.Undo | cmd/spinclass/profilegrant_import_cmd.go:245-261 | undoing n binds in reverse leaves exactly the earlier index without the replaced bindings that did not check out; on a sound disk no step fails |
| GrantImport.SelectTops | cmd/spinclass/profilegrant_import_cmd.go:173-193 | collects exactly the records nothing in the batch widens; refused iff a grantee would get two |
| ImportTheorems.TopsKeepOrder | cmd/spinclass/profilegrant_import_cmd.go:173-193 | what is bound stands in the order of the batch, exactly the records nothing in it widens |
| GrantImport.CheckWalks | cmd/spinclass/profilegrant_import_cmd.go:166-171 | passes iff every record walks to a root, batch before store |
| GrantImport.CheckSupersedes | cmd/spinclass/profilegrant_import_cmd.go:195-205 | passes iff every record current for the grantee of one to bind is that record or the one it widens |
| GrantImport.PutAll | cmd/spinclass/profilegrant_import_cmd.go:207-212 | on success every record is stored; no other digest changes; no binding dangles that did not |
| GrantImport.ImportGrantRecords | cmd/spinclass/profilegrant_import_cmd.go:100-224 | refused iff nothing is given or a check fails, store untouched; all stored before any bind; then exactly the tops are bound, or the index is the earlier one without the replaced bindings that did not check out, equal to it iff all did |
| ImportTheorems.AdmittedIff | cmd/spinclass/profilegrant_import_cmd.go:100-205 | an import is admitted iff no records widen each other in a ring, every record is a live card-signed root that widens only a live root of its grantee, found in the batch before the store, no grantee would get two, and without replace none loses its current record but to one that widens it |
| ImportTheorems.WithoutReplaceIff | cmd/spinclass/profilegrant_import_cmd.go:195-205 | where the other checks pass, an import without replace is admitted iff each current record of a grantee to bind is the record bound or the one it widens |
| ImportTheorems.WideningNeedsNoReplace | cmd/spinclass/profilegrant_import_cmd.go:125-127 | a batch whose records widen their grantees' current ones is never refused for want of replace |
| GrantImport.ConsistentUndone | cmd/spinclass/profilegrant_import_cmd.go:226-264 | with no dangling binding an undone import leaves the index as it was |
| GrantImport.DanglingBindingIsDropped | cmd/spinclass/profilegrant_import_cmd.go:235-254 | BindAll on a sound disk, over a dangling binding and then a candidate that cannot be bound, rolls back and loses that binding |
| GrantImport.ImportKeepsProfiles | cmd/spinclass/profilegrant_import_cmd.go:125-127 | without replace a grantee's new record keeps every profile name of its current one |
| MergeQueue.InvStep | cmd/spinclass/merge_queue.go:106-166 | every step keeps the accounting of attempts, queue and slot |
| MergeQueue.InvRun | cmd/spinclass/merge_queue.go:106-166 | so does every run |
| MergeQueueTheorems.StrandedExactly | internal/alfa/job/runner.go:139-150 | a step strands queued merges iff it is a failing job.Start with nobody else left to look at the queue |
| MergeQueueTheorems.UninterruptedRunsStrandNone | cmd/spinclass/commands_mcp_only.go:803-842 | no run in which no merge is queued during a job.Start strands one |
| MergeQueueTheorems.StrandingRun | cmd/spinclass/commands_mcp_only.go:881-897 | a four-step run strands a merge |
| MergeQueueTheorems.AskingAgainStaysStranded | cmd/spinclass/commands_mcp_only.go:812-842 | a further merge-async does not revive a stranded queue |
| MergeQueueTheorems.EachClaimSettledOnce | cmd/spinclass/commands_mcp_only.go:844-897 | over every run a claim of an async merge or a check is settled not at all while held and once after; a blocking merge settles twice iff its Start failed and it ended inline; only an ended attempt has landed |
| MergeQueueTheorems.FateStep | cmd/spinclass/merge_queue.go:117-166 | every step keeps each enqueued merge in exactly one of queued, being started, started, leaving, released |
| MergeQueueTheorems.QueueConservesAndKeepsOrder | cmd/spinclass/merge_queue.go:117-166 | over every run each enqueued merge met exactly one fate and the started ones are a subsequence of the enqueued |
| MergeQueueTheorems.DrainedNeverStarts | cmd/spinclass/merge_queue.go:125-135 | what is queued when an unsuccessful merge's callback runs never starts or lands and is released or about to be, however the run goes on |
| MergeQueueTheorems.OvertakenExactly | cmd/spinclass/merge_queue.go:117-142 | a step begins to start a queued merge past a pending failure iff it pops the head while one is pending, and a merge starts with a failure pending iff that pop is launched |
| MergeQueueTheorems.CanOvertakeIff | cmd/spinclass/merge_queue.go:125-142 | some next step overtakes iff the slot is free, a merge is queued, and a draining and a non-draining callback are both pending |
| MergeQueueTheorems.TwoPendingNeedAnEarlyClaim | internal/alfa/job/runner.go:102-106 | over every run two callbacks are pending together only if a job claimed the slot while one was |
| MergeQueueTheorems.FailureDrainsFirst | cmd/spinclass/merge_queue.go:110-127 | so where no job takes the slot while a callback is pending, no queued merge is started past a failure |
| MergeQueueTheorems.FailureAhead | cmd/spinclass/merge_queue.go:106-116 | a run reaches a failed merge with another queued behind it and the callback pending |
| MergeQueueTheorems.CheckOvertakesFailure | cmd/spinclass/commands_mcp_only.go:900-936 | from there a check's callback starts the queued merge |
| MergeAttestations.OneHolderPerAttestation | internal/bravo/attestation/attestation.go:215-306 | over every run no two attempts hold one attestation |
| MergeAttestations.OneLandingPerAttestation | internal/bravo/attestation/attestation.go:308-339 | over every run without a failed attested blocking Start no attestation admits two landings |
| MergeAttestations.LandingSpendsIffHeld | internal/bravo/attestation/attestation.go:313-330 | a landing consumes its attestation iff the attempt still holds its claim |
| MergeAttestations.FailureReleasesForRetry | internal/bravo/attestation/attestation.go:308-330 | an attempt that ends without landing, wherever it stands, leaves the attestation it holds buffered and unclaimed |
| MergeAttestations.BlockingMergeGivesClaimUp | cmd/spinclass/commands_mcp_only.go:653-684 | a run in which a blocking merge goes on inline with its claim given up |
| MergeAttestations.TwoLandingsOnOneAttestation | cmd/spinclass/commands_mcp_only.go:595-630 | from there two merges land on one attestation |
| MergeClaims.MergeAsyncAdmits | cmd/spinclass/commands_mcp_only.go:812-842 | merge-async adds a merge iff it need not stack or may and the attestation it needs is available, queues it last iff busy, and gives it the buffered attestation and its ticket either way; else nothing changes |
| MergeClaims.OtherAdmits | cmd/spinclass/commands_mcp_only.go:1128-1160 | a blocking merge or check is admitted iff the attestation it needs is available, and then holds it |
| MergeClaims.RecordedIsAvailable | internal/bravo/attestation/attestation.go:189-209 | over every run a recorded attestation replaces what was buffered, is available and was never claimed |
| MergeClaims.AvailableIff | internal/bravo/attestation/attestation.go:215-306 | over every run an attestation is available iff it is buffered and no attempt admitted on it has its claim to settle |
| MergeClaims.NoSecondOnOneAttestation | cmd/spinclass/commands_mcp_only.go:803-842 | over every run, while an attempt on the buffered attestation has its claim to settle, no gated merge or check is admitted |
| MergeClaims.CallbackDecides | cmd/spinclass/merge_queue.go:117-142 | a callback finds exactly one thing to do: nothing on an empty queue, a drain after a merge that did not land, else the head, started iff the slot is free |
| MergeClaims.DrainEmpties | cmd/spinclass/merge_queue.go:125-128 | a drain empties the queue and leaves exactly its entries to be released |
| MergeClaims.PopTakesTheHead | cmd/spinclass/merge_queue.go:137-140 | a pop takes the head and the slot and nothing else |
| MergeClaims.JobMayEnd | internal/alfa/job/runner.go:277-294 | a running job may end landed or not, as it reports or aborted |
| MergeClaims.EndedLeavesCallback | internal/alfa/job/runner.go:259-294 | a job that ends settles its attempt once, and clearing its slot leaves the callback that says whether it was a merge and how it ended |
| MergeClaims.QuietRunIsDone | cmd/spinclass/merge_queue.go:117-166 | over every run, once nothing but a new request can happen, the slot is free, no callback is pending, and every attempt is over and settled but for the merges of a stranded queue |
| MergeServer.Server.AddAttempt | internal/bravo/attestation/attestation.go:275-295 | a gated attempt holds the buffered attestation under a new ticket, which claims it; another one holds nothing |
| MergeServer.Server.SettleHold | internal/bravo/attestation/attestation.go:313-330 | a landing empties the buffer, anything else releases the claim, a superseded claim settles to nothing |
| MergeServer.Server.DecideMergeAsync | cmd/spinclass/commands_mcp_only.go:812-842 | refused for busy iff a job runs or merges are queued and stacking is off, for the gate iff it then finds no available attestation; else the merge is queued or dispatched with the buffered attestation as its claim |
| MergeServer.Server.StartSessionJob | cmd/spinclass/commands_mcp_only.go:942-953 | is a refusal, or a claim of the slot and then a launch or a failed launch of the machine |
| MergeServer.Server.ProcessMergeQueue | cmd/spinclass/merge_queue.go:117-142 | the callback's first locked region is the machine's: nothing queued, a drain, a refused dispatch, or a pop and then its launch or failure |
| MergeServer.Server.PopAndStart | cmd/spinclass/merge_queue.go:137-142 | pops the head; its job.Start is refused, or takes the slot and launches, or takes it and clears it again |
| MergeServer.Server.DrainQueue | cmd/spinclass/merge_queue.go:125-128 | empties the queue and marks exactly its entries for release |
| MergeServer.Server.DrainAfterFailedStart | cmd/spinclass/merge_queue.go:155-158 | the second locked region is one step of the machine |
| MergeServer.Server.ReleaseDrained | cmd/spinclass/merge_queue.go:129-132 | the release loop releases each drained entry once |
| MergeServer.Server.ReleaseOne | cmd/spinclass/merge_queue.go:91-96 | settles the entry's claim as not landed |
| Restart.SessionRecord.ConsumeRequest | cmd/spinclass/restart_cmd.go:523-537 | refused iff a close is marked; else the request is cleared and the verdict stamped, with no re-arm counted |
| Restart.SessionRecord.RearmRestart | cmd/spinclass/restart_cmd.go:649-667 | done iff no close is marked, no request queued, a restart was stamped, fewer than two re-arms counted and no return mark is as new as the stamp; then stamped and counted |
| Restart.SessionRecord.BeginClosing | internal/delta/close/close.go:499-510 | marked iff forced, or no restart was stamped within two minutes |
| Restart.SessionRecord.MarkReturn | internal/delta/hooks/hooks.go:536-545 | marked iff a restart was stamped and no mark is as new |
| Restart.AtMostTwoRearms | cmd/spinclass/restart_cmd.go:553-560 | over every interleaving at most two re-armed verdicts follow one preflight verdict |
| Restart.VerdictAllowsTwo | cmd/spinclass/restart_cmd.go:529-534 | after a verdict two re-arms succeed, however often the last restart was re-armed, and a third does not |
| Restart.RearmIff | cmd/spinclass/restart_cmd.go:604-667 | in every reachable state after a verdict a re-arm is begun iff, by the run's own updates, no close is marked, no request queued, fewer than two re-arms followed, the session is not back and the verdict is under two minutes old; its locked step checks the same again but for the age |
| Restart.RearmsStayInTheWindow | cmd/spinclass/restart_cmd.go:619-625 | over every interleaving a re-arm is begun only within two minutes of the preflight verdict it repeats |
| Restart.UpdatesTake | internal/delta/close/close.go:520-530 | a close given up, a request withdrawn and one that replaced another are what the next verdict finds |
| Restart.EveryVerdictWasOpen | cmd/spinclass/restart_cmd.go:649-660 | over every interleaving no verdict to restart falls between the marking of a close and its being given up, and no re-armed one while a request is queued, by the run's own close and request updates |
| Restart.CloseAndRestartExclude | internal/delta/close/close.go:492-510 | over runs without forced closes and with a rising clock no close is marked while a restart is in flight |
| Restart.NoRearmOnceBack | cmd/spinclass/restart_cmd.go:649-660 | over every run with a rising clock nothing is re-armed after the session came back |
| Restart.ReturnMarkHoldsIff | internal/delta/hooks/hooks.go:536-545 | the mark keeps a re-arm out iff it is not older than the restart |
| Restart.RearmAfterReturn | internal/delta/hooks/hooks.go:536-545 | a clock set back lets a returned session be re-armed |
| Restart.WatchdogReportsExactly | cmd/spinclass/restart_cmd.go:815-840 | over every run with a rising clock a watchdog reports iff its verdict is the newest, the session is not back and no close is under way |
| Restart.EachRequestActedOnOnce | cmd/spinclass/restart_cmd.go:465-471 | with preflights that do not overlap each request gets at most one verdict, whatever else interleaves |
| Restart.RequestsEndOnceIff | cmd/spinclass/restart_cmd.go:520-537 | over every interleaving each request ends once, acted on, withdrawn or replaced, iff every verdict's locked step finds in the record the request it read |
| Restart.FirstVerdictIff | cmd/spinclass/restart_cmd.go:520-537 | in every reachable state a commit with no close under way gives a first verdict on a live request and ends no other iff the record still holds the request its preflight read |
| Restart.OverlapActsTwice | cmd/spinclass/restart_cmd.go:520-537 | from any fresh record with a request two overlapping preflights restart on it |
| Restart.WithdrawnRequestRestarts | cmd/spinclass/restart_cmd.go:945-953 | from any fresh record a request cancelled between read and commit still restarts |
| Restart.NewerRequestLost | cmd/spinclass/restart_cmd.go:523-529 | from any fresh record a request queued between read and commit is cleared, the one verdict being on the request it replaced |
| Handles.ParseHandleRights | internal/alfa/session/session.go:1271-1295 | accepts iff every non-blank name is known; the set holds exactly the names |
| Handles.RenderRights | internal/alfa/session/session.go:1249-1259 | the known names of the set, in vocabulary order |
| Handles.RightsRoundTrip | internal/alfa/session/session.go:1249-1295 | a set parses back from its text, and only the empty set has none |
| HandleTheorems.RightsTextReads | internal/alfa/session/session.go:1249-1259 | the text of a set of rights is their names, each once, in the order of the vocabulary |
| HandleTheorems.RightsTextIff | internal/alfa/session/session.go:1271-1295 | a text is read as a set of rights iff what stands between its commas is the names of exactly those |
| Handles.Session.GrantHandle | internal/alfa/session/session.go:1339-1352 | adds a pending handle with its rights, defaulting an empty list; a holder or pending one is left alone |
| Handles.Session.AcceptHandle | internal/alfa/session/session.go:1358-1368 | moves one pending entry to the holders |
| Handles.Session.ReleaseHandle | internal/alfa/session/session.go:1378-1394 | removes the caller from both lists and its rights entry |
| Handles.Session.GrantSessionHandle | cmd/spinclass/handles_cmd.go:185-267 | checks on a loaded copy, then writes what `HandleTheorems.GrantDoes` states iff the condition of `HandleTheorems.GrantTakesIff` holds |
| Handles.Session.ReleaseSessionHandle | cmd/spinclass/handles_cmd.go:327-367 | releases the caller and marks a releasing spawner |
| Handles.Session.AcceptOnUse | cmd/spinclass/handles_cmd.go:445-468 | accepts exactly the caller's pending handle |
| Handles.AcceptedGetsPotential | internal/alfa/session/session.go:1297-1317 | a pending holder that accepts resolves to what it was offered |
| HandleTheorems.ResolvesIff | internal/alfa/session/session.go:1297-1317 | a principal resolves to what its handle gives, given or offered on record, and otherwise to every right iff it is the unreleased spawner |
| HandleTheorems.HolderActs | cmd/spinclass/close_child_cmd.go:74-101 | a holder is authorized with just the rights its handle gives |
| HandleTheorems.SpawnerActs | cmd/spinclass/close_child_cmd.go:77-101 | the spawner's own key, until it released, is authorized with every right as long as its principal holds no handle |
| HandleTheorems.OutsiderIff | cmd/spinclass/close_child_cmd.go:68-90 | who neither holds nor is offered a handle is authorized iff it presents the spawner's key before the spawner released |
| HandleTheorems.StrangerCannotAct | cmd/spinclass/close_child_cmd.go:68-90 | anyone else outside is not authorized and changes nothing by any grant, accept or release |
| HandleTheorems.StrangerNeverActs | cmd/spinclass/close_child_cmd.go:68-90 | and so over every run in which nobody grants it a handle |
| HandleTheorems.AcceptMoves | internal/alfa/session/session.go:1358-1368 | accepting moves the caller to the end of the holders, with the rights it was offered |
| HandleTheorems.GrantTakesIff | cmd/spinclass/handles_cmd.go:197-236 | a grant takes effect iff the caller may pass on grant and every right named, and the recipient has no handle, given or offered |
| HandleTheorems.GrantDoes | cmd/spinclass/handles_cmd.go:236-256 | then the recipient is last among those with an offer, with a list that reads as the rights named, or observe and close, and nothing else changes but the caller's own accept |
| HandleTheorems.RefusedGrantDoes | cmd/spinclass/handles_cmd.go:197-250 | a refused grant changes nothing, and one whose recipient has a handle already only accepts the caller's |
| HandleTheorems.GrantedThenAccepted | cmd/spinclass/handles_cmd.go:185-267 | what a grant names, with observe, is exactly what its recipient may do once it accepts |
| HandleTheorems.ReleaseDoes | cmd/spinclass/handles_cmd.go:337-360 | a release takes out the caller and its rights and nothing else, and ends the spawner's key iff the caller is the spawner, by principal or by key |
| HandleTheorems.HandleIsKept | internal/alfa/session/session.go:1370-1377 | over every run in which a holder does not release it stays authorized with the same rights |
| Handles.CallerWithinAuthority | cmd/spinclass/close_child_cmd.go:92-101 | an authorized caller's rights are within what somebody may do |
| Handles.GrantRecords | cmd/spinclass/handles_cmd.go:215-256 | the recipient gets the rights named, with observe, or the default ones for a blank list |
| Handles.GrantNarrowsIff | cmd/spinclass/handles_cmd.go:227-234 | a grant is within its granter's rights iff the list names a right or the granter holds close |
| Handles.GrantWidensIff | cmd/spinclass/handles_cmd.go:211-236 | a grant widens what somebody may do iff it takes effect with a blank list while nobody may close |
| Handles.AcceptingKeepsAuthority | cmd/spinclass/handles_cmd.go:445-468 | accepting changes nobody's rights |
| Handles.ReleaseShrinksAuthority | cmd/spinclass/handles_cmd.go:324-360 | a release only shrinks authority and leaves the caller nothing |
| Handles.AuthorityNeverGrows | cmd/spinclass/handles_cmd.go:206-214 | over every serial run without blank lists what somebody may do never grows |
| Handles.SpawnerStaysReleased | cmd/spinclass/close_child_cmd.go:51-60 | once the spawner released, every authorized caller is a holder, forever |
| Handles.ReleaseEndsSpawner | cmd/spinclass/handles_cmd.go:347-360 | a release by the spawner, by principal or by key, ends its session-key path |
| Handles.BlankGrantWidens | cmd/spinclass/handles_cmd.go:215-236 | a holder of grant alone hands on close with the list "," |
| Handles.DuplicateReleaseWidens | internal/alfa/session/session.go:1378-1394 | a principal listed twice among the holders, as no command leaves it, keeps a default handle after its release |
| SshSig.ReadStringOf | internal/0/sshsig/sshsig.go:247-258 | one length-prefixed string off the front, or an error |
| SshSig.U32RoundTrip | internal/0/sshsig/sshsig.go:130-133 | a big-endian length reads back |
| SshSig.ReadAllWritten | internal/0/sshsig/sshsig.go:247-258 | strings written one after another read back, rest included |
| SshSig.AllWrittenAsRead | internal/0/sshsig/sshsig.go:247-258 | bytes that read as n strings are those strings written and the rest |
| SshSig.ParseBlob | internal/0/sshsig/sshsig.go:173-245 | the loop that consumes the fields accepts what the specification accepts |
| SshSig.CheckFields | internal/0/sshsig/sshsig.go:197-244 | the checks on the five fields, in the order of the code |
| SshSig.DecodeEncode | internal/0/sshsig/sshsig.go:173-245 | the encoding of PROTOCOL.sshsig section 2 of a sendable signature decodes to its fields |
| SshSig.EncodeDecode | internal/0/sshsig/sshsig.go:173-245 | every accepted byte string is the encoding of its result, which is sendable |
| SshSig.AcceptsExactly | internal/0/sshsig/sshsig.go:173-245 | the reader accepts exactly the encodings of sendable signatures |
| SshSig.AcceptedReads | internal/0/sshsig/sshsig.go:173-245 | the bytes accepted as a signature, spelled out: SSHSIG, version 1, key, namespace, nothing reserved, sha256 or sha512, a signature of the key's type, and nothing behind |
| SshSig.SignedDataReads | internal/0/sshsig/sshsig.go:117-128 | the data signed, spelled out |
| SshSig.BigEndian | internal/0/sshsig/sshsig.go:130-133 | a length is four bytes, the most significant first |
| SshSig.SignedDataInjective | internal/0/sshsig/sshsig.go:117-133 | signed data is injective in namespace, hash and digest shorter than 2^32 bytes |
| SshSig.VerifiedDataInjective | internal/0/sshsig/sshsig.go:61-92 | with the digests the code computes it is injective for namespaces of any length |
| SshSig.LongFieldsCollide | internal/0/sshsig/sshsig.go:130-133 | a namespace of 2^32 bytes and the empty one sign the same bytes with some digests |
| SshSig.Dearmor | internal/0/sshsig/sshsig.go:150-171 | the in-place rewriting of lines returns the specified body or error |
| SshSig.DearmorReads | internal/0/sshsig/sshsig.go:150-171 | an armored body decodes whichever of LF and CR LF ends each line and whatever line ends follow |
| SshSig.DearmorExact | internal/0/sshsig/sshsig.go:150-171 | a text decodes to raw iff it is the opening line, at least one body line and the closing line, ended in LF or CR LF, with line ends behind, and the body decodes to raw |
| Sweatfiles.MergeNamed | internal/0/sweatfile/hierarchy.go:393-409 | the loop over an index of names replaces in place or appends, as the fold of single definitions does |
| Sweatfiles.MergeKeys | internal/0/sweatfile/hierarchy.go:80-89 | per-key writes in any order yield the override of one table by the other |
| Sweatfiles.MergeList | internal/0/sweatfile/hierarchy.go:38-45 | absent inherits, empty clears, anything else appends |
| Sweatfiles.MergeWith | internal/0/sweatfile/hierarchy.go:26-528 | every list, table, setting and array merged by its rule and the trusted settings dropped |
| Sweatfiles.ClearTrusted | internal/0/sweatfile/hierarchy.go:215-387 | the nine never-merged settings the receiver carried are cleared one by one |
| Sweatfiles.MergeLayers | internal/alfa/sweatfileio/hierarchy.go:84-86 | the loaders' fold over the layers |
| Sweatfiles.ListsCascade | internal/0/sweatfile/hierarchy.go:38-45 | a folded list is the concatenation of what follows the last explicit clear, absent iff no layer sets it |
| Sweatfiles.NamedCascade | internal/0/sweatfile/hierarchy.go:389-409 | a folded array holds each name once, at its first position, with its last definition |
| Sweatfiles.LastLayerSets | internal/0/sweatfile/hierarchy.go:330-345 | a key of a folded table has the value of the last layer that sets it |
| Sweatfiles.NamedMergeAssociative | internal/0/sweatfile/hierarchy.go:389-409 | merging named arrays is associative, with or without repeated names |
| Sweatfiles.ListMergeAssociativeIff | internal/0/sweatfile/hierarchy.go:411-418 | merging append lists is associative iff the middle one does not clear between two that add |
| Sweatfiles.CascadeLists | internal/0/sweatfile/hierarchy.go:26-64 | each append list of the merged layers is the concatenation of what follows its last clear |
| Sweatfiles.CascadeArrays | internal/0/sweatfile/hierarchy.go:389-525 | each named array of the merged layers holds each name once, at its first position, with its last definition |
| Sweatfiles.CascadeTables | internal/0/sweatfile/hierarchy.go:80-376 | each per-key table of the merged layers has every key from the last layer that sets it |
| Sweatfiles.CascadeSettings | internal/0/sweatfile/hierarchy.go:93-375 | each setting that a nearer layer replaces whole is the last layer's that sets it |
| Sweatfiles.NothingTrustedIsMerged | internal/0/sweatfile/hierarchy.go:215-387 | none of the nine settings trusted only from their own layers survives a fold, whichever layer carried it |
| Sweatfiles.NormalizeCommand | internal/0/sweatfile/sweatfile.go:570-582 | the loop keeps exactly the lines that are not blank, in order |
| Sweatfiles.NormalizedIff | internal/0/sweatfile/sweatfile.go:570-582 | a command normalizes to something iff it holds a character that is not white space |
| Sweatfiles.NormalizedReads | internal/0/sweatfile/sweatfile.go:574-582 | a command normalizes to exactly its lines that hold more than white space, in their order, each as often as it stood |
| Sweatfiles.Active | internal/0/sweatfile/sweatfile.go:876-924 | the five filters keep exactly the entries that are no removal sentinels, in order |
| Sweatfiles.ActiveMcps | internal/0/sweatfile/sweatfile.go:876-886 | exactly the servers with a command, in their order |
| Sweatfiles.ActivePreMergeSkills | internal/0/sweatfile/sweatfile.go:888-898 | exactly the skills with a rationale, in their order |
| Sweatfiles.ActivePreMergeExemptions | internal/0/sweatfile/sweatfile.go:900-911 | exactly the exemptions with a command that is not blank, in their order |
| Sweatfiles.ActiveRemotes | internal/0/sweatfile/sweatfile.go:913-924 | exactly the remotes not marked as removed, in their order |
| Sweatfiles.ActivePostMergeTargets | internal/0/sweatfile/sweatfile.go:705-718 | exactly the targets with a command that is not blank, in their order |
| Sweatfiles.ActiveIffLastDefinitionIs | internal/0/sweatfile/sweatfile.go:705-718 | a definition is active after the cascade iff it is its name's last one and no sentinel |
| Harden.Registry.Confine | internal/0/git/harden.go:45-63 | each key is registered once more, with the new hardening |
| Harden.Registry.Release | internal/0/git/harden.go:63-71 | each key is counted down and removed at zero |
| Harden.Registry.HardeningFor | internal/0/git/harden.go:73-91 | in any map order: none iff nothing covers a form, else the covering directory with the most bytes, ties to the first form |
| Harden.BestIsOne | internal/0/git/harden.go:82-90 | that answer is unique, so map order does not matter |
| Harden.RefsAreOutstanding | internal/0/git/harden.go:45-71 | from an empty registry, after any sequence of registrations and single releases, a key is present iff a registration is outstanding, counted exactly, with the latest one's hardening |
| Harden.CoversIffBeneath | internal/0/git/harden.go:73-85 | a directory covers exactly itself and what is beneath it, except that the root covers only itself |
| Harden.InnermostWins | internal/0/git/harden.go:73-91 | of the registered directories at or above a path the one chosen lies beneath every other but the root |
| Harden.BestIff | internal/0/git/harden.go:76-90 | the answer, spelled out: at or above a form of the path, none such is longer, and none as long is above an earlier form |
| Harden.RootCoversNothingBelow | internal/0/git/harden.go:85-85 | nothing below a registered root directory is hardened by it |
| LineWriting.LineWriter.Write | internal/0/tapblock/linewriter.go:39-52 | the loop emits the complete lines of buffer and chunk and keeps the unterminated end |
| LineWriting.LineWriter.Flush | internal/0/tapblock/linewriter.go:54-64 | emits a non-empty end once and clears the buffer |
| LineWriting.CutsTheStream | internal/0/tapblock/linewriter.go:43-50 | lines and end, newlines put back, are the stream; no line holds a newline |
| LineWriting.CutIsOne | internal/0/tapblock/linewriter.go:43-50 | a stream can be cut so in one way only |
| LineWriting.ChunkingInvariant | internal/0/tapblock/linewriter.go:36-52 | however a stream is cut into writes, lines and end are those of writing it at once |
| LineWriting.FlushSendsTheEnd | internal/0/tapblock/linewriter.go:54-64 | writes and a flush send every line and the end, and a second flush sends nothing |

## Left out

- Cryptography, hashing, base64 and public-key parsing: parameters of the model.
- Calendar arithmetic inside `time.Format` and `time.Parse`: a pair of functions with stated properties.
- Invalid UTF-8: a string of the model is always valid, so the check at grant.go:103 and transition.go:60 has no failing input here; error wording is reduced to the fact of an error.
- JSON decoding, files, locks, subprocesses, TAP output, notices, wakes and metrics.
- The merge itself: `PrepareMerge` and `FinishMerge` are the choice of landing or not; git is not modelled.
- More than one worktree in the merge queue: the map has one entry per worktree and no step touches two.
- Claims of dead processes, which count as void: every process of the model is alive.
- The panic path of `processMergeQueue`, and a panicking closure beyond its deferred settle.
- The hand-off, the arming of the watchdog timer and who is woken, and which principal may ask for a restart: a refusal is a step that may always be taken.
- Concurrent handle commands: each is checked on a loaded copy and written later; the model runs them one after another, as the theorems on authority need.
- A recorded rights list that does not parse makes `RightsOf` panic: the model has the outcome, and lets a command that meets it change nothing.
- The sharing of one backing array by two results of `MergeWith` (hierarchy.go:416 appends to the receiver's slice): lists are values here.
- Sweatfile tables that are present but set nothing are not told from absent ones; the settings of a table that a nearer layer replaces whole are named values, among which an empty `[session-entry]` list or string sets nothing.
- `EffectiveAllowedMCPs`, timeouts and the other accessors: single passes that a reading settles.
- `filepath.Abs` and `EvalSymlinks` in `hardenKeys`: the forms of a path are given.
