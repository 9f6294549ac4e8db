# Verification of the MinIO bucket controller

This project models the reconciliation protocol of the MinIO bucket controller and proves what it
keeps, what it reaches and where it falls short. Three actors share one world: the bucket
reconciler, the service-account reconciler and the garbage collector of accounts. Outsiders
(users, the clock, whoever manages providers) take steps of their own. Every API call is one
atomic step, may fail, and may have taken effect although its reply was lost.

`dafny verify dfyconfig.toml` checks everything.

## How the model is built

- `World.dfy` holds what the API server stores (Buckets, accounts, secrets, providers, versions,
  uids), what the MinIO servers hold (buckets, users, live keys, policies, attachments), and a
  history that no controller reads: which resource made which MinIO bucket, what existed ever
  since the current pass began, what the stored statuses of an account had seen. The *desk* is
  what the controllers have learned and done in their current passes: the latest listing of an
  account's buckets, what the bucket controller has been told, which MinIO buckets it has made,
  what the collector's sweep has listed and marked. Nothing that is stored depends on the desk.
- `Actions.dfy` gives every call a *guard* (what the calling code must have established), the
  server's own condition, and an effect. Reading calls that later calls rest on are steps too,
  and put on the desk what was so in that very world. A run is any interleaving of enabled steps.
- `Invariants.dfy` proves one inductive invariant over every single step, hence over every run.
- `Rely.dfy` and `Cluster.dfy` are the API servers as a controller meets them: before each call
  the others take any number of steps, and the call is done, refused, or lost. The cluster keeps a
  log of the writing calls that were asked for, whatever came of them.
- `AccountReconciler.dfy`, `BucketReconciler.dfy` and `Collector.dfy` are the controllers' code,
  method by method, with in-memory copies that are edited in place. Each call they make meets its
  guard whatever the others do and whichever calls fail; with nobody else around, a pass that
  meets no failing call, or reports no error although calls may fail, is, but for the desk,
  exactly the function `AccountPass` or `BucketPass`.
- `Outcomes.dfy` and `AccountOutcomes.dfy` say what these functions come to, case by case, in
  terms of what was stored before and is stored after.
- `PassFacts.dfy` says over whole runs what the desk is worth: whatever a call rests on was so in
  a world of the same pass. `Witness.dfy` holds the runs that lead to unwanted states.
- `Safety.dfy`, `Grace.dfy`, `Deletion.dfy`, `Settled.dfy`, `AccountProgress.dfy`,
  `BucketProgress.dfy`, `Convergence.dfy` and `Admission.dfy` hold the main results; `Owners.dfy`,
  `OwnerList.dfy`, `Conditions.dfy`, `SecretData.dfy`, `PolicyText.dfy`, `Provider.dfy` and
  `Listing.dfy` the algorithms underneath.

## Assumptions

- Reads are fresh. Each controller has one worker (bucket_controller.go:398-403). The clock is read
  once per account in a sweep of the collector, and once per status change.
- Account names are unique per provider: user names carry no namespace (bucket_controller.go:405-407),
  and the server refuses a second account of the same name and provider.
- Nobody else writes statuses, finalizers, MinIO users, keys or policies, or secrets that an account
  controls (deleting such a secret is allowed). Other secrets are anybody's.
- Removing a MinIO user removes its keys and attachments; setting a user's policies does not check
  that they exist. Generated access keys never start with `bucket.s3.linka.cloud/`.
- A provider's name stands for one MinIO server; providers come and go, but a name is never reused
  for another server. Admission requests for providers are decided one at a time.
- An update that changes nothing keeps the object's version, as the API server does.
- `meta.SetStatusCondition` updates the first entry of its type in place or appends, and moves the
  transition time only when the status changes.
- Executing a Go template is one opaque function from the template and the access data to a text or
  an error.

## What turned out false, and what holds instead

- A secret *named* `<account>-sa` need not agree with the account's user; one that the account
  controls always does (`Safety.NameAloneDoesNotAgree`, `Safety.CredentialsAgree`).
- The collector does not take every account that has been pending for the grace period: `found` is
  overwritten by every condition, so an account whose last condition is, say, Error is never taken
  while it stays unused (`GarbageCollectors.GarbageCollector.Sweep`, `GracePeriod.OverlookedForGood`,
  `GracePeriod.FirstFailureHides`).
- The owner rewrite leaves one controller exactly when the previous controller is the first entry
  naming its object and its version parses (`Owners.SoleControllerExactly`).
- A Bucket with policy Delete whose MinIO bucket is already gone is never released
  (`Deletions.BucketDeletionExactly`, `Deletions.StuckBucketStays`).
- A Bucket does not delete only what it has made. Deletion leaves no MinIO bucket of its name
  exactly when there was none, or the policy is Delete and the provider is there; who made it does
  not matter (`Deletions.RemovedExactly`, `Deletions.RemovedInTwoExactly`). A run in which a Bucket
  in conflict with a MinIO bucket that was there before it takes that one along is
  `Witnesses.DeletionCanRemoveAnothers`.
- The rollback of a failed create is always of a MinIO bucket the same pass has made
  (`PassFacts.RollbackIsOfOwnMake`), but what it hits is still that one exactly when no outsider has
  removed it in between (`PassFacts.RollbackHitsOwnExactly`, `Witnesses.RollbackCanHitAnothers`).
- The credentials beside a Bucket's endpoint need not work there: nothing compares the account's
  provider with the Bucket's. The key is live on that server exactly when the two are equal
  (`Settled.CredentialsWorkExactly`), and a Bucket with an account of another provider becomes Ready
  all the same (`Convergence.MismatchBecomesReady`).
- Passes do not recover from everything: when the reply to MakeBucket is lost after it has taken
  effect, the resource is in conflict with its own MinIO bucket for good. From a reachable state,
  undisturbed turns make it Ready exactly when no MinIO bucket of its name is there without a
  recorded endpoint (`Convergence.ConvergesExactly`, `Convergence.LostReplyBlocksForGood`).
- The controller's own entries in a credentials secret are safe from a template exactly when it names
  none of them; only admission checks that (`SecretData.OwnEntriesKeptExactly`).
- Ready does not imply that the recorded secret name is the spec's (`Settled.NameRecordedExactly`).
- Defaulting at admission and in the controller agree exactly when the service account is set and
  the secret name is not the empty string (`Admission.DefaultingsAgreeExactly`).
- The default-provider check turns away every other provider once there is a default, not only
  those that ask to be the default (`Admission.DefaultShutsOutOthers`).
- A settled pass still sends an update of the credentials secret, since the comparison meant to
  spare it never succeeds (bucket_controller.go:305); it is the stored content that no longer
  changes (`Settled.ReadyIsSettled`).
- The repository's README lists the actions of the policy in another order than the code; the model
  follows the code.

## Model

| member | source | states |
|---|---|---|
| Convergence.Converges | controllers/bucket_controller.go:64-174 | From any live bucket with fresh names, any schedule that gives both controllers a turn in each of 79 rounds ends with Bucket and account Ready and with everything Ready stands for in place; each round lowers what is left to do or nothing was left. |
| Convergence.ConvergesExactly | controllers/bucket_controller.go:179-202 | From any reachable state whose names are fresh but for the MinIO bucket, whatever had failed before it, such a schedule makes both Ready if and only if no MinIO bucket of the name is there without a recorded endpoint. |
| Convergence.LostReplyBlocksForGood | controllers/bucket_controller.go:190-198 | A run from nothing at all: one step before its end the convergence results apply, then MakeBucket takes effect and its reply is lost, and no such schedule makes the resource Ready any more. |
| Convergence.MismatchBecomesReady | controllers/bucket_controller.go:207-236 | A Bucket created for an account of another provider becomes Ready by any such schedule, and the two providers are different still. |
| Convergence.TurnGains | controllers/bucket_controller.go:87-173 | Every undisturbed pass of either controller, from any such state, leaves the stored content unchanged or strictly lowers a natural-number measure. |
| Convergence.QuiescentIsReady | controllers/bucketserviceaccount_controller.go:82-143 | The only states in which neither controller changes anything are those with both resources Ready. |
| Convergence.FreshBucketIsJoint | controllers/bucket_controller.go:93-121 | A Bucket just created with unused names and a provider given or found by default is where the convergence results start. |
| Convergence.BecomeReady | controllers/bucket_controller.go:64-174 | The imperative controllers themselves, taking turns in any order on an undisturbed cluster, make both resources Ready, with everything Ready stands for in place. |
| Convergence.RunTurns | controllers/bucketserviceaccount_controller.go:60-144 | Any order of passes by the imperative controllers is, but for the desk, the composition of the pass functions. |
| BucketProgress.BucketPassGains | controllers/bucket_controller.go:87-173 | A bucket pass changes nothing stored or meets a milestone (finalizer, provider, secret name, policy, Creating, owner, MinIO bucket, secret, Ready) and loses none. |
| BucketProgress.UnchangedBucketIsDone | controllers/bucket_controller.go:273-276 | A bucket pass that changes nothing has met every milestone or is waiting for the account's secret. |
| AccountProgress.AccountPassGains | controllers/bucketserviceaccount_controller.go:82-143 | An account pass changes nothing stored or meets a milestone (finalizer, status, user, key and secret, pending mark, policies, Ready). |
| AccountProgress.UnchangedAccountIsDone | controllers/bucketserviceaccount_controller.go:82-143 | An account pass that changes nothing has met every milestone. |
| AccountProgress.LateGains | controllers/bucketserviceaccount_controller.go:226-276 | Lifting the pending mark, which alone would lose the Ready milestone, is made up for in the same pass. |
| Safety.CredentialsAgree | controllers/bucketserviceaccount_controller.go:165-224 | In every state of every run, whatever failed: while an account's own credentials secret exists, its user exists and the secret's access key is the user's one and only live key. |
| Safety.NameAloneDoesNotAgree | controllers/bucketserviceaccount_controller.go:180-186 | A run in which a secret of the account's name exists and the user does not. |
| Safety.NoUserLeaks | controllers/bucketserviceaccount_controller.go:71-87 | In every state of every run each MinIO user answers to a stored account with the finalizer, or was left behind by a release whose pass had met, between its first step and the release, a world without the provider. |
| Safety.AccountReleasedLast | controllers/bucketserviceaccount_controller.go:325-357 | An account's finalizer goes only when its user is gone or its provider was missing at some point of the releasing pass. |
| Safety.BucketReleasedLast | controllers/bucket_controller.go:347-367 | A Bucket with policy Delete goes only when its MinIO bucket or its provider was missing at some point of the releasing pass. |
| Safety.AccountStays | controllers/bucketserviceaccount_controller.go:71-87 | An account with the finalizer stays, with its uid, provider and deletion mark, until its own controller releases it. |
| Safety.BucketStays | controllers/bucket_controller.go:75-92 | A Bucket with the finalizer stays, with its uid and provider, until its own controller releases it. |
| Safety.StatusesAreCoherent | controllers/bucket_controller.go:370-395 | In every reachable stored Bucket: condition types unique, phase Ready and phase Error mean what they say, Ready and Error never both true. |
| Safety.DeletingIsForever | controllers/bucket_controller.go:332-346 | Phase Deleting lasts as long as the resource does. |
| Safety.NoSilentAdoption | controllers/bucket_controller.go:179-202 | A Bucket that is Ready, or merely records an endpoint, has itself made its MinIO bucket in an earlier step, in a state where that bucket did not exist. |
| Safety.RetainedBucketsStay | controllers/bucket_controller.go:183-198 | If no Bucket of a name ever has policy Delete, a MinIO bucket of that name that exists when a pass begins exists ever after, unless outsiders remove it. |
| PassFacts.ReadyIsShown | controllers/bucket_controller.go:148-174 | Over every run, whatever the others do and whichever calls fail: Ready is stored only in a pass that has met worlds in which the account existed for which rewriting the owner list changes nothing, the MinIO bucket existed, the provider and the account's secret were as used, and the spec's secret was stored, the bucket's own, with exactly those credentials and the template's entries; and with the endpoint recorded. |
| PassFacts.ReadyOnlyByReadying | controllers/bucket_controller.go:157-172 | A stored Bucket is Ready only by such a write, to this very object. |
| PassFacts.FactMeans | controllers/bucket_controller.go:64-174 | Whatever a bucket pass has been told held in a world of that pass. |
| PassFacts.ListedMeans | controllers/bucketserviceaccount_controller.go:226-231 | What an account pass has on record as listed is what was indexed under the account in the world in which it last listed. |
| PassFacts.PoliciesFollowIndex | controllers/bucketserviceaccount_controller.go:255-276 | Over every run a user is given exactly the policies of the buckets that were indexed under its account when the pass last listed them, and nothing else in MinIO changes. |
| PassFacts.PoliciesAreOfListed | controllers/bucketserviceaccount_controller.go:278-304 | A policy document is written only for a bucket listed in the same pass, and it is that bucket's. |
| PassFacts.DeletedOnlyIfListed | controllers/bucketserviceaccount_controller.go:389-426 | Over every run the collector asks to delete an account only if its latest listing found it selected, and found it Deleting or has since been followed by the collector's own mark of exactly the listed object. |
| Invariants.StepKeepsInv | controllers/bucket_controller.go:64-395 | One inductive invariant is kept by every single call of every actor. |
| Invariants.RunKeepsInv | controllers/bucketserviceaccount_controller.go:60-427 | The invariant holds after any interleaving of any length. |
| Invariants.AgreementKept | controllers/bucketserviceaccount_controller.go:187-224 | Each call keeps the agreement of credentials secret, user and live keys. |
| Invariants.SerialsUniqueKept | controllers/bucketserviceaccount_controller.go:200-204 | Each call keeps every access key live on at most one server. |
| Invariants.NoLeakKept | controllers/bucketserviceaccount_controller.go:146-163 | Each call keeps every MinIO user covered by a finalizer or recorded as left behind. |
| Invariants.StatusCoherenceKept | controllers/bucket_controller.go:122-172 | Each call keeps Bucket statuses coherent. |
| Invariants.NoAdoptionKept | controllers/bucket_controller.go:191-198 | Each call keeps recorded endpoints backed by an earlier make of the same resource. |
| Invariants.GraceHistoryKept | controllers/bucketserviceaccount_controller.go:232-254 | Each call keeps every DeletionPending condition backed by a stored sight of no bucket that no stored sight of a bucket follows. That a sight is what a listing showed is GracePeriod.SightIsListing. |
| Invariants.OneDefaultKept | controllers/bucketprovider_webhook.go:69-76 | Each call keeps at most one default provider. |
| GracePeriod.MarkedAfterGrace | controllers/bucketserviceaccount_controller.go:397-423 | The collector newly marks an account only if, at least a minute before the time it judges by, a pass listed the buckets in a world in which none was indexed under the account, and stored a status of this very object; and every status stored in between by a pass that had listed rests on a listing that found none either. |
| GracePeriod.SeenIsSights | controllers/bucketserviceaccount_controller.go:226-254 | The recorded sights are exactly those stored by the status writes of the run, in order; what each is worth is the next two rows. |
| GracePeriod.SightIsListing | controllers/bucketserviceaccount_controller.go:226-246 | A stored sight is what the latest listing of the same pass showed: no bucket exactly when, in the world of that listing, none was indexed under the account. |
| GracePeriod.ListingIsSight | controllers/bucketserviceaccount_controller.go:226-254 | And the other way round: whoever stores a status after listing stores what the listing showed. |
| GracePeriod.MarkedAfterSight | controllers/bucketserviceaccount_controller.go:397-423 | The same in terms of sights: the mark comes at least the grace period after a stored sight of no bucket, with no stored sight of a bucket since. |
| GracePeriod.OverlookedForGood | controllers/bucketserviceaccount_controller.go:399-408 | A pending account whose last condition is of another kind is never selected again, over any run in which no bucket is indexed under it in any world from the start of the pass under way, and nobody asks to delete it. |
| GracePeriod.UnusedSeesNothing | controllers/bucketserviceaccount_controller.go:226-254 | While no bucket is indexed under an account, from the start of a pass on, no status it stores rests on the sight of one. |
| GracePeriod.FirstFailureHides | controllers/bucketserviceaccount_controller.go:364-379 | The first failure recorded on a pending account puts it in that position. |
| GracePeriod.SelectedExactly | controllers/bucketserviceaccount_controller.go:397-409 | An account that nobody is deleting is selected exactly when the pending mark is its last condition and at least a minute old. |
| GarbageCollectors.Scan | controllers/bucketserviceaccount_controller.go:399-408 | The scan with the overwritten flag selects an account exactly when no watched condition is younger than the grace period and the last condition is a watched one. |
| GarbageCollectors.GarbageCollector.Sweep | controllers/bucketserviceaccount_controller.go:389-428 | Whatever the others do and whichever calls fail, a sweep marks and asks to delete only accounts it has listed as selected, deletes only those listed as Deleting or marked by it, and passes over none that was selected when it began; undisturbed, exactly the selected accounts go, in any list order, and nothing else changes. |
| GarbageCollectors.GarbageCollector.Collect | controllers/bucketserviceaccount_controller.go:410-426 | Only an account listed as selected is marked, against the listed version, and it is deleted only once it is marked; with no failing call it is spared only if it is no longer as it was listed. Undisturbed, it is marked and deleted. |
| GarbageCollectors.OneIsCollected | controllers/bucketserviceaccount_controller.go:410-426 | A selected account is gone or deleting afterwards, with Deleting recorded and all else as it was; an unselected one is as it was. |
| AccountReconcilers.AccountReconciler.Reconcile | controllers/bucketserviceaccount_controller.go:60-144 | Whatever the others do and whichever calls fail, a pass is a run of enabled steps; with nobody else around it is, but for the desk, exactly the pass function when no call can fail, and also when calls may fail but it reports no error. A pass that reports no error has asked for a write, unless its account is gone. |
| AccountReconcilers.AccountReconciler.ReconcileUser | controllers/bucketserviceaccount_controller.go:146-163 | On success the user exists; a user that is there is left alone. |
| AccountReconcilers.AccountReconciler.ReconcileServiceAccount | controllers/bucketserviceaccount_controller.go:165-224 | The pass goes on only if the secret exists, and then nothing was asked for; with nobody else around and no error reported, old keys are otherwise purged and a key, its secret and the recorded name are made. |
| AccountReconcilers.AccountReconciler.PurgeKeys | controllers/bucketserviceaccount_controller.go:187-199 | On success the user has no key left; no credentials secret of the account is out meanwhile. |
| AccountReconcilers.AccountReconciler.CreateKey | controllers/bucketserviceaccount_controller.go:200-204 | On success the new key is the user's only one. |
| AccountReconcilers.AccountReconciler.CreateSecret | controllers/bucketserviceaccount_controller.go:205-215 | The caller has to know that the key is the user's one live key; with nobody else around, exactly its secret is stored on success. On failure the call meant to delete the key again has followed, naming the user. |
| AccountReconcilers.AccountReconciler.RecordSecret | controllers/bucketserviceaccount_controller.go:216-222 | If the secret's name cannot be recorded, the secret is asked to be deleted whatever else fails, and with no failing call and nobody else around it is gone; the call meant to delete the key follows. |
| AccountReconcilers.AccountReconciler.ReconcilePolicies | controllers/bucketserviceaccount_controller.go:226-276 | On success, also with others running and calls failing, exactly the policies of the buckets that this call itself has listed are written and attached to the user; on failure too, users, keys and other policies are untouched. What a listing shows is PassFacts.ListedMeans. |
| AccountReconcilers.ExactMeans | controllers/bucketserviceaccount_controller.go:255-303 | What that exactness says of every bucket, every user and every policy. |
| AccountReconcilers.AccountReconciler.ReconcilePolicy | controllers/bucketserviceaccount_controller.go:278-304 | On success the bucket's policy document is in place and every other policy is as it was. |
| AccountReconcilers.NamesJoined | controllers/bucketserviceaccount_controller.go:255-262 | MinIO reads the joined names back as exactly the listed buckets' policies. |
| AccountReconcilers.AccountReconciler.ReconcilePending | controllers/bucketserviceaccount_controller.go:232-254 | It is told whether the listing of this pass was empty and nothing else; what it stores carries that sight, whatever the others do. Undisturbed, the pending mark is set and stored for an unused account, lifted and stored for a used one. |
| AccountReconcilers.AccountReconciler.ReconcileDeletion | controllers/bucketserviceaccount_controller.go:306-358 | Success means the user is gone or the provider was found missing; the first pass only marks. |
| AccountReconcilers.AccountReconciler.UpdateStatus | controllers/bucketserviceaccount_controller.go:97-99 | A status write takes effect only against the version that was read. |
| AccountReconcilers.AccountReconciler.Advance | controllers/bucketserviceaccount_controller.go:360-385 | Whatever happens, exactly the changed status is asked for, against the version that was read; with no failing call it is stored, or somebody has written the object since. What the changes look like is AccountOutcomes. |
| AccountReconcilers.AccountReconciler.Fail | controllers/bucketserviceaccount_controller.go:364-385 | Ready there and false, Error true, phase Error and nothing else are asked for whatever else fails; with no failing call they are stored, or somebody has written the object since. |
| AccountReconcilers.AccountReconciler.ReconcileStages | controllers/bucketserviceaccount_controller.go:115-142 | A pass whose stage has failed ends with asking for that status. |
| BucketReconcilers.BucketReconciler.Reconcile | controllers/bucket_controller.go:64-174 | Whatever the others do and whichever calls fail, a pass is a run of enabled steps, and one that reaches the Ready block has been told all that Ready stands for; with nobody else around, failing calls included, and a template that names none of the controller's own entries, all of that holds where the pass ends. With nobody else around it is, but for the desk, exactly the pass function when no call can fail, and also when calls may fail but it reports no error. A pass that reports no error has asked for a write, unless its Bucket is gone or its MinIO bucket is there. |
| BucketReconcilers.BucketReconciler.ReconcileServiceAccount | controllers/bucket_controller.go:204-236 | The pass goes on, also with others running, only if the account exists and rewriting the owner list for it changes nothing. |
| BucketReconcilers.BucketReconciler.EnsureAccount | controllers/bucket_controller.go:207-224 | On success the account is stored and its uid known, also with others running; undisturbed it is read, or created with the bucket's provider. |
| BucketReconcilers.BucketReconciler.ReconcileBucket | controllers/bucket_controller.go:176-202 | The pass goes on, also with others running, only with a MinIO bucket and a recorded endpoint; undisturbed, a bucket that exists without one is a conflict. |
| BucketReconcilers.BucketReconciler.MakeBucket | controllers/bucket_controller.go:190-201 | On success the bucket was made by this resource and the endpoint is stored. If recording fails, the removal of the made bucket is the last thing asked for whatever else fails, and with no failing call the bucket is gone; if the make fails without a failing call, a bucket was there. With nobody else around no MinIO bucket that was there before is lost. What the rollback may hit is PassFacts.RollbackIsOfOwnMake. |
| BucketReconcilers.BucketReconciler.ReconcileSecret | controllers/bucket_controller.go:238-327 | The pass goes on, also with others running and calls failing, only after the spec's secret was stored under the bucket's control with exactly the credentials of the account's secret as read in this pass and the rendered template; with nobody else around it is then exactly the secret stage. |
| BucketReconcilers.BucketReconciler.Prepare | controllers/bucket_controller.go:269-304 | The secret is filled and claimed, and never claimed for an account. |
| BucketReconcilers.BucketReconciler.CreateSecret | controllers/bucket_controller.go:316-326 | With nobody else around, on success the secret is created and its name recorded. If recording fails, the secret is asked to be deleted whatever else fails, and with no failing call it is gone; the call that names no key follows. |
| BucketReconcilers.BucketReconciler.ReconcileDeletion | controllers/bucket_controller.go:329-368 | Success means the policy is not Delete, or the MinIO bucket or the provider has been missing during the pass. |
| BucketReconcilers.BucketReconciler.Fail | controllers/bucket_controller.go:370-395 | Ready there and false, Error true, phase Error and nothing else are asked for whatever else fails; with no failing call they are stored, or somebody has written the object since. |
| BucketReconcilers.BucketReconciler.ReconcileStages | controllers/bucket_controller.go:145-156 | A pass whose stage has failed ends with asking for that status. |
| BucketReconcilers.BucketReconciler.FillSpec | controllers/bucket_controller.go:93-121 | Undisturbed, exactly the first missing default is filled in and stored. |
| Settled.ReadyIsSound | controllers/bucket_controller.go:148-174 | For a fault-free, undisturbed pass, as a function: one that reaches the Ready block ends with the account existing and controlling the bucket, the MinIO bucket there with an endpoint, and the spec's secret there, the bucket's own, with the account's credentials. All other passes are PassFacts.ReadyIsShown. |
| Settled.ReadyOnlyByReaching | controllers/bucket_controller.go:157-172 | No other path of an undisturbed pass makes a Bucket Ready. |
| Settled.ReadyIsSettled | controllers/bucket_controller.go:305-315 | The next undisturbed pass changes no stored content. |
| Outcomes.TroubleIsReported | controllers/bucket_controller.go:137-156 | For a live Bucket under way: whenever the provider is missing, the account's name is taken, the MinIO bucket is there without a recorded endpoint, a template does not render, or the secret has another controller, an undisturbed pass stores phase Error, Error true, Ready there and false, and leaves all other conditions, the endpoint and the secret's name as they were. |
| Outcomes.NoTroubleNoError | controllers/bucket_controller.go:137-174 | And in no other case: conditions and phase then stay as they were, or Ready is recorded. |
| Outcomes.ProviderIsFilled | controllers/bucket_controller.go:93-106 | An empty provider is replaced by the default; with none, the same error is stored. |
| Outcomes.RestIsFilled | controllers/bucket_controller.go:107-121 | The secret's name, then the reclaim policy are filled in, one a pass, and nothing else changes. |
| Outcomes.CreatingIsRecorded | controllers/bucket_controller.go:122-135 | Then Creating is the one condition, and the phase. |
| Outcomes.OwnerIsRewritten | controllers/bucket_controller.go:204-236 | A missing account is created for the bucket's provider, the owner list is rewritten for it, and nothing else changes. |
| Outcomes.MinioBucketIsMade | controllers/bucket_controller.go:189-201 | A missing MinIO bucket is made and the provider's endpoint recorded, and nothing else changes. |
| Outcomes.SecretIsAwaited | controllers/bucket_controller.go:241-276 | While the account's secret is missing the pass ends quietly, with the secret under an earlier name deleted. |
| Outcomes.SecretIsWritten | controllers/bucket_controller.go:241-327 | Else the spec's secret is written and no other touched but the one under an earlier name, its name is recorded when it is new, and Ready is recorded if it was not: Ready true, Creating and Error gone. |
| Outcomes.DeletionIsMarked | controllers/bucket_controller.go:332-346 | The first pass over a deleted Bucket records Deleting and nothing else. |
| Outcomes.FailureWriteShows | controllers/bucket_controller.go:370-395 | Over every run, with others around and calls failing: the write of a failure that takes effect is seen as Error true, Ready there and false, all other conditions as before. |
| AccountOutcomes.MissingProviderIsReported | controllers/bucketserviceaccount_controller.go:102-108 | For a live account under way whose provider is missing, an undisturbed pass stores phase Error, Error true, Ready there and false, and leaves the pending mark and all other conditions as they were. |
| AccountOutcomes.KeyIsMade | controllers/bucketserviceaccount_controller.go:165-224 | A missing credentials secret is made anew: the user's old keys go, a fresh one is its only key, the secret holds it and is the account's, its name is recorded, and no other key or secret is touched. |
| AccountOutcomes.PendingIsRecorded | controllers/bucketserviceaccount_controller.go:232-246 | An unused account is marked pending, with that phase, and the pass ends. |
| AccountOutcomes.PendingStays | controllers/bucketserviceaccount_controller.go:232-276 | One that is pending keeps its status, and its user is left with no policy. |
| AccountOutcomes.BucketsAreServed | controllers/bucketserviceaccount_controller.go:247-276 | A used account loses the mark, its user is given exactly its buckets' policies, each with its bucket's document, and Ready is recorded if it was not; no other user or policy is touched. |
| AccountOutcomes.DeletionIsMarked | controllers/bucketserviceaccount_controller.go:309-323 | The first pass over a deleted account records Deleting and nothing else. |
| AccountOutcomes.FailureWriteShows | controllers/bucketserviceaccount_controller.go:364-385 | Over every run the write of a failure that takes effect lowers Ready, raises Error, and leaves Creating and Deleting as they were, and the pending mark unless it was changed in the same pass. |
| AccountOutcomes.NeverReadyAndError | controllers/bucketserviceaccount_controller.go:126-141 | Over every run no stored account is Ready and in error at once. |
| AccountOutcomes.ReadyOnlyBySuccess | controllers/bucketserviceaccount_controller.go:126-141 | Over every run a stored account is Ready only by a write of success to this very object, with Creating and Error gone and no pending mark. |
| Settled.SoundCredentialsAreLive | controllers/bucket_controller.go:272-301 | The access key in a Ready bucket's secret is the one live key of the account's user. |
| Settled.CredentialsWorkExactly | controllers/bucket_controller.go:204-236 | They are live on the server of the endpoint beside them if and only if the account is of the bucket's provider. |
| Settled.NameRecordedExactly | controllers/bucket_controller.go:316-322 | The secret's name is recorded exactly when the secret is created. |
| Settled.AccountSecretIsRefused | controllers/bucket_controller.go:302-304 | A bucket told to use the account's own secret never gets past the secret stage. |
| Settled.OwnedIsIndexedOnce | controllers/bucketserviceaccount_controller.go:445-455 | A bucket whose owner list is as it should be is listed under its account and under no other. |
| Deletions.DeletionCanBeRetried | controllers/bucketserviceaccount_controller.go:306-358 | After any run since the deletion was asked for, failed passes included, two undisturbed passes leave no object, secret, user or key of an account not yet released. |
| Deletions.TwoPassesDelete | controllers/bucketserviceaccount_controller.go:71-79 | Two undisturbed passes over a deleted account remove everything. |
| Deletions.BucketDeletionExactly | controllers/bucket_controller.go:347-367 | Two undisturbed passes release a deleted Bucket if and only if the provider is missing, the policy is not Delete, or the MinIO bucket exists. |
| Deletions.StuckBucketStays | controllers/bucket_controller.go:363-365 | Otherwise no number of passes releases it. |
| Deletions.RemovedExactly | controllers/bucket_controller.go:347-367 | A pass over a marked Bucket leaves no MinIO bucket of its name if and only if there was none, or the policy is Delete and the provider is there. |
| Deletions.RemovedInTwoExactly | controllers/bucket_controller.go:332-367 | The same for two passes over any deleted Bucket, marked or not. |
| Deletions.OnlyOwnNameRemoved | controllers/bucket_controller.go:359-365 | No pass over a deleted Bucket removes a MinIO bucket of another name or provider. |
| Witnesses.DeletionCanRemoveAnothers | controllers/bucket_controller.go:179-202 | A run in which a Bucket meets a MinIO bucket that was there before it, is in conflict, is deleted with policy Delete, and takes it along although nothing was ever made. |
| PassFacts.RollbackIsOfOwnMake | controllers/bucket_controller.go:190-201 | Over every run a rollback is of a MinIO bucket that the same pass has made where there was none, and has not removed since. |
| PassFacts.RollbackHitsOwnExactly | controllers/bucket_controller.go:190-201 | That bucket has been there ever since, and is the one hit, if and only if no outsider has removed it in between. |
| Witnesses.RollbackCanHitAnothers | controllers/bucket_controller.go:197-201 | A run in which an outsider has put another bucket in its place, and the rollback removes that one. |
| Owners.SoleControllerExactly | controllers/utils.go:34-53 | For a list with at most one controller, the new reference ends up the only controller if and only if the old one is the first entry naming its object and its version parses. |
| Owners.ForcedKeepsOthers | controllers/utils.go:38-52 | Every entry that is neither the old controller nor the new reference's object is kept, in order. |
| Owners.ForcedInPlace | controllers/utils.go:34-53 | Entry by entry: another object's controller is cut out where it stands, the first entry naming the new reference's object is replaced where it stands or the reference appended, and nothing else moves. |
| Owners.SameExactly | controllers/utils.go:65-77 | Two references name the same object exactly when group, kind and name agree, whatever the versions and uids. |
| Owners.ReferencesAre | controllers/utils.go:25-32 | The references the controllers make, written out. |
| Owners.ForcedKeepsDistinct | controllers/utils.go:34-53 | Duplicate-freedom is preserved. |
| Owners.ForcedIdempotent | controllers/utils.go:34-53 | Rewriting twice is rewriting once, the reference is the controller, and the list stays well formed. |
| Owners.IndexFollowsLastAccount | controllers/bucketserviceaccount_controller.go:445-455 | Over any sequence of account changes a bucket is listed under the last account forced on it and no other. |
| Owners.IndexedExactly | controllers/bucketserviceaccount_controller.go:445-455 | A bucket is listed under a name exactly when its first controller is a service account of that name, of this very group and version. |
| Owners.ClaimedIdempotent | controllers/bucket_controller.go:302-304 | Claiming a claimed secret again changes nothing. |
| Owners.ClaimedController | controllers/bucket_controller.go:302-304 | A claim that succeeds makes the bucket the controller. |
| Owners.ClaimedExactly | controllers/bucket_controller.go:302-304 | A claim is refused exactly when another object is the controller; else one entry is replaced where it stands, or appended. |
| Owners.ParseFormat | controllers/utils.go:65-77 | A group and version formatted as an API version parse back to themselves. |
| OwnerLists.OwnerList.ForceControllerReference | controllers/utils.go:13-54 | The in-place cut, overwrite and append leave exactly the specified list. |
| OwnerLists.OwnerList.Cut | controllers/utils.go:42-43 | The shift down inside the array removes one entry. |
| OwnerLists.OwnerList.IndexOwnerRef | controllers/utils.go:56-63 | The first entry naming the same object, or -1. |
| OwnerLists.ForceOnCopy | controllers/bucket_controller.go:225-235 | On a deep copy the original list and its array are exactly as before, and the comparison tells whether anything changed. |
| Conditions.SetKeepsUnique | controllers/bucket_controller.go:374-388 | Setting a condition keeps types unique. |
| Conditions.RemoveKeepsUnique | controllers/bucket_controller.go:158-159 | Removing a condition keeps types unique. |
| Conditions.SetInPlace | controllers/bucket_controller.go:374-388 | Setting a condition the list has changes its first entry in place, the transition time only with the status. |
| Conditions.RemoveCuts | controllers/bucket_controller.go:158-159 | Removing a condition takes out its entry and keeps all others in order. |
| SecretData.Fill | controllers/bucket_controller.go:284-301 | The overlay loop gives the same contents in every map order, and fails exactly when some template does not render. What the contents are is SecretData.ContentsAre. |
| SecretData.ContentsAre | controllers/bucket_controller.go:277-301 | Entry by entry: a template's entry holds what it renders to for this bucket, its account's credentials and its provider; the five own entries, where no template takes their place, hold the bucket's name, the two credentials, the endpoint, and "true" or "false". |
| SecretData.OwnEntriesKeptExactly | controllers/bucket_controller.go:284-301 | The controller's own entries survive every rendering if and only if the template names none of them. |
| SecretData.TemplateAddsItsKeys | controllers/bucket_controller.go:291-301 | An accepted template adds exactly its own entries. |
| SecretData.ValidateTemplate | controllers/bucket_webhook.go:113-130 | A template is accepted exactly when it names none of the five reserved entries and every entry renders for an empty access. |
| PolicyText.PolicyFillsCompacted | pkg/mc/minio.go:43-49 | The policy of a bucket is exactly this document: the three listing actions on the bucket itself, all object actions on what is in it. |
| PolicyText.TemplateIsSource | pkg/mc/minio.go:17-41 | The template with the name filled in is the source's text, line by line, gaps included. |
| PolicyText.PolicyInjective | pkg/mc/minio.go:43-49 | Different bucket names have different policies. |
| PolicyText.CompactIdempotent | pkg/mc/minio.go:45-47 | Compacting twice is compacting once, for every text. |
| PolicyText.CompactFlatten | pkg/mc/minio.go:17-41 | Compaction keeps every token and drops every gap. |
| PolicyText.SplitJoin | controllers/bucketserviceaccount_controller.go:262 | A non-empty list of names without commas, joined, splits back to itself. |
| Providers.ScanForDefault | controllers/bucketprovider_controller.go:143-154 | The first listed provider that carries the annotation, if any does. |
| Providers.OrderDoesNotMatter | controllers/bucketprovider_controller.go:148-152 | With at most one default the scan finds it in every list order. |
| Admission.Request.Default | controllers/bucket_webhook.go:25-52 | Defaulting in place fails exactly when there is no provider to default to, and then changes nothing; else provider, service account, reclaim policy and secret name are filled in where they were missing, and nothing else. |
| Admission.DefaultedIdempotent | controllers/bucket_webhook.go:30-50 | Defaulting twice is defaulting once. |
| Admission.DefaultingsAgreeExactly | controllers/bucket_webhook.go:30-50 | Admission and the controller's step-by-step defaulting agree if and only if the service account is set and the secret name is not empty. |
| Admission.PassFillsOne | controllers/bucket_controller.go:93-121 | Each undisturbed pass over an unfilled spec takes one such step. |
| Admission.ValidateCreate | controllers/bucket_webhook.go:54-70 | Accepted exactly when the provider exists and the template is acceptable. |
| Admission.ValidateUpdate | controllers/bucket_webhook.go:72-95 | Accepted exactly when, besides, a provider once set is not changed. |
| Admission.ValidateProvider | controllers/bucketprovider_webhook.go:69-76 | The default check passes exactly when there is no default or this provider is it. |
| Admission.CheckIsAccepts | controllers/bucketprovider_webhook.go:69-76 | In every list order the check lets through exactly what the protocol's server accepts. |
| Admission.DefaultShutsOutOthers | controllers/bucketprovider_webhook.go:74-76 | Once there is a default, every other provider is turned away. |
| Admission.DefaultIsUnique | controllers/bucketprovider_controller.go:143-154 | In every reachable state there is at most one default, and any two listings agree on it. |
| Admission.ProviderNeverChanges | controllers/bucket_webhook.go:81-83 | Over every run a Bucket's provider, once set, never changes. |

## Left out

- Labels, annotations, secret types, condition reasons and messages, observed generations, events and logs: no effect on control flow.
- Manager wiring, flags, certificates, caches and watches: a pass may run at any time on any key.
- The HTTP clients of MinIO and Kubernetes: each call is an atomic step that may fail.
- The connection errors of `newClient` and the reading of provider credentials: one more call that may fail.
- BucketProvider status handling, secret references, endpoint checks and `ValidateDelete`: short branches without an invariant of their own.
- Password generation and the authorisation checks of the account webhook.
- The bucket webhook's defaulting of requests is proved as an algorithm; it is not applied to the writes of the model's outsiders, who may store any spec.
- Names and patterns required by the CRD schema, so an empty secret name is an ordinary key in the model.
- Finalizers of other controllers: in the model a deleted object goes when the controller's own finalizer does.
- Validity of JSON and the panic of `Policy` on invalid text; the escaping of U+2028 and U+2029 by the compaction.
- Policies of MinIO are compared as the bucket they belong to or as some other text; `PolicyText.PolicyInjective` is why that loses nothing.
- Convergence is proved for one Bucket and its account among any bystanders that stay as they are; it says nothing about Buckets that compete for one secret name.
- GarbageCollectors.GarbageCollector.Collect: deletes by name, as the source does; that the deleted object is still the listed one is not claimed.
- Safety.StatusesAreCoherent: is about Buckets; an account can be Ready and DeletionPending together, and its phase can lag behind its conditions.
