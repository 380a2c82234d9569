# Verified model of the object storage manager

The manager runs two reconcilers against one object store and one IAM service, without
transactions. The Bucket controller allocates, adopts, repairs and deletes remote buckets. The
BucketAccess controller gives each access a service account with one credential, keeps the
credential's keys in a Secret, rotates it on request, and grants the account a statement of its
own in the policy of every referenced bucket, which the Bucket controller rewrites too.

This project models both protocols and the policy algebra they share, and proves what they keep
over every run of passes that may fail, lose a reply, or be cut before or after any single call.

## How it is built

- `Faults` gives every call a fate: answered, refused, unheard (it took effect, an error came
  back), or cut before or after taking effect. A pass takes one fate per call site, so a theorem
  about all fates is a theorem about every failure and every crash. Fates of calls a pass does not
  make do not matter, and may be taken to be answered.
- `BucketHandler` and `AccessHandler` are the handlers in the program's own form: objects whose
  fields (store, IAM, Secrets, status, annotation, the in-memory copy of the status) are updated
  step by step, loops with early exits included. Each method is proved equal to a specification
  function of `BucketLifecycle` or `AccessModel`.
- `AccessSafety`, `AccessAgreement`, `AccessGrants`, `AccessRecovery`, `AccessCredits`,
  `AccessRevocation`, `AccessExternal`, `AccessReport`, `AccessOutcome`, `AccessSecrets`,
  `AccessRuns`, `DeadKeys`, `BucketSafety`, `BucketProgress`, `BucketReport`, `FixedNames` and
  `OwnBuckets` prove the properties of those functions, first for a stage, then for a pass, then
  for runs in which passes alternate with whatever users and other controllers do. `AccessLimits`
  shows where the guarantees end.
- `Policy`, `BucketUpdate`, `CoOwnership`, `Convergence` and `SharedBuckets` are the algebra of the
  shared policy document. `Conditions`, `Permissions`, `Namespaces`, `Adoption`, `BucketNames` and `Text` are
  the supporting pieces.

## Hypotheses

Each is stated as a precondition of the theorems that need it.

- The read and the write of a bucket by one controller are one atomic step. The store keeps what
  it is sent; a missing label or annotation map is an empty one; a missing policy document leaves
  the policy as it is.
- Sids of different accesses differ, and nobody else writes under an access's Sid
  (`SidIsOurs`, `DistinctGrants`). `NothingNewThroughout` shows that the other controllers comply.
- `spec.policy` is compatible with the accesses (`Compatible`); this is exact.
- Identities of accounts and credentials are distinct and never reused (`WellFormed`), listings
  are complete, and nobody else puts an access's ownership label on an account (`LabelIsOurs`).
- Agreement and recovery: managed mode throughout, a fixed spec, a Secret that is absent at first,
  faithful reads of it (`Faithful`), no withdrawal of a rotation request, and nobody else writing
  the Secret's keys or the status, or deleting the account or its credentials (`Benign`). The bound
  on credentials allows others anything but writing the status, labelling accounts and adding
  credentials to owned ones (`ManagedEvent`); the bound on accounts only needs `LabelIsOurs`.
- Complete revocation: fixed references and names (`Steady`).
- Safety of foreign buckets: suffixes on for life (`Permitted`), and nobody else has created a bucket
  under the very name on record (`NameTaken`).
- Recovery of buckets with suffixes: suffixes on for life and never blank (`SuffixRun`).

## What the proofs turned up

Where a stronger claim is false of the code, the code is modelled as it is, and a lemma says so.

- Two accesses can share a Sid, even within one namespace; when they do is exact
  (`SidsEqualExactly`, `ManagedSidCollides`).
- With two different grants under one Sid, without a version in `spec.policy`, or with a statement
  there under an access's Sid that is not its very grant, no record satisfies all controllers, and
  they rewrite each other's statements for ever (`AgreementIffCompatible`, exact).
- Any error reading the Secret counts as a missing Secret. A pass that then replaces the
  credential and is cut leaves the keys of a deleted credential in the Secret (`ReadsMustBeFaithful`
  is exact). Later passes keep them and report Ready, until a rotation is requested or the keys are
  taken away (`FailedReadKillsKeys`).
- Withdrawing a rotation request after such a cut has the same effect (`WithdrawalKillsKeys`), and
  it is harmless exactly if the Secret held no keys (`WithdrawalExact`).
- The rollback after a failed status write also deletes a credential that was not new but found
  again by its access key; when is exact (`RecoveredCredentialIsRolledBack`), and a detour through
  external mode gets there (`ModeSwitchLosesCredential`).
- External mode forgets the managed credential without deleting it (`ExternalModeForgets`).
- An error that says "not found" is dropped once the failure is written to the status
  (internal/thalassa/bucketaccess/bucketaccess.go:700). When the Secret cannot be written because its
  namespace is not there, the pass therefore goes on, grants every bucket to the empty principal,
  leaves a rotation request pending, and reports Ready (`MissingNamespaceGrantsNobody`;
  `CompletedPassGrants` and `ManagedPass` are exact).
- A reference dropped from the spec keeps its grant, even after deletion of the access
  (`DroppedReferenceKeepsGrant`; `TeardownExact` is exact).
- An account outlives the access if the status has lost it or the mode is external, and so do
  credentials that are not tracked (`IamLeftBehindExactly`).
- With a fixed name, a bucket whose adoption was refused is deleted with the resource
  (`RefusedAdoptionStillDeleted`; `TeardownSpares` is exact).
- With a fixed name and adoption off, a create whose reply is lost leaves a bucket that every later
  pass refuses (`LostReplyGetsStuck`; `FixedNameRecovery` is exact).
- With suffixes, a foreign bucket created under a name on record whose bucket was lost is repaired
  like an own one (`PassSparesExactly`, `NameReuseUsurps`).
- A pass that finds the bucket on record gone clears the record and keeps the conditions, so the
  status can say Available with no bucket until the next pass (`LostStaysAvailable`;
  `AvailableIsEarned` is exact).
- Drift beside an unparsable policy text is reported and never repaired (`DriftIsExact`).
- A creating pass can create several buckets if replies to create calls are lost
  (`LostReplyMakesTwo`; `AllocationExact` is exact); only one of them can be recorded.
- The comment on Sids (internal/thalassa/bucketaccess/policy.go:42) promises that everything but
  ASCII letters, digits and dashes is replaced; the code keeps every Unicode letter and digit
  (`SanitizedIsPlain`).

## Model

| member | source | states |
|---|---|---|
| AccessRecovery.CrashRecovery | internal/thalassa/bucketaccess/bucketaccess.go:101-273 | From every state that any number of managed passes, failing or cut at any call, can leave (users deleting or stripping the Secret and requesting rotations in between): one pass whose calls are all answered completes, and leaves an owned account, a live tracked credential, a Secret with exactly its keys, every referenced bucket granting that account exactly the wanted actions, no rotation request, and Ready true |
| AccessRecovery.AgreementEver | internal/thalassa/bucketaccess/bucketaccess.go:216-273 | Between passes of every such run from an absent Secret: if the Secret holds keys and no rotation is pending, they are the keys of the credential in the status, and it is live on the owned account |
| AccessRecovery.OneShotRotation | internal/thalassa/bucketaccess/bucketaccess.go:181-191 | In every such run: a rotation request goes away only in a pass that recorded a credential which did not exist before, stored its keys and granted every referenced bucket; a completed pass leaves it pending if and only if its write of the Secret was refused with not-found |
| AccessRecovery.SettledMintsNothing | internal/thalassa/bucketaccess/bucketaccess.go:419-432 | In every such run: with keys in the Secret and no rotation requested, no pass creates or deletes an account or a credential, whatever fails |
| AccessRecovery.ManagedPass | internal/thalassa/bucketaccess/bucketaccess.go:101-214 | One managed pass with any fates keeps the agreement invariant; a completed one serves the access if and only if its write of the Secret was not refused with not-found, and otherwise leaves no Secret, grants to the empty principal, and the request as it was |
| AccessRecovery.PassSucceeds | internal/thalassa/bucketaccess/bucketaccess.go:101-214 | With the organisation, permissions, Secret reference and ready buckets provided and every call answered, a pass completes, from every state in which nobody else owns the Secret, whatever the status and IAM look like, and even if the Secret is refused with not-found |
| AccessRecovery.GrantAllFacts | internal/thalassa/bucketaccess/bucketaccess.go:172-202 | From the grants on, account and credential on record stay; the request is cleared only if rotated and everything is granted; completion means everything is granted and recorded |
| AccessRecovery.RunKeepsSound | internal/thalassa/bucketaccess/bucketaccess.go:101-273 | The invariant behind agreement and recovery holds after every benign run |
| AccessCredits.CredentialsDoNotAccumulate | internal/thalassa/bucketaccess/bucketaccess.go:238-273 | In every managed run (anything may happen to Secrets and requests, reads may fail, others may delete the account, teardowns may be cut): live credentials on owned accounts number at most 1, plus those untracked at first, plus one for each pass that minted and then lost a reply or was cut before recording, or whose best-effort deletion of the old or the unrecorded credential failed |
| AccessCredits.PassLoose | internal/thalassa/bucketaccess/bucketaccess.go:216-273 | One managed pass, whatever its fates, leaves at most one more credential untracked, and none unless it minted one and a call it then made failed in the way that Loss names |
| AccessCredits.EnsureCredentialLoose | internal/thalassa/bucketaccess/bucketaccess.go:406-470 | The credential stage reuses a known credential leaving IAM as it is, or returns a fresh one with the old one gone unless its deletion was tried and failed, or fails leaving at most one stray credential, none if it minted none |
| AccessCredits.RecordLoose | internal/thalassa/bucketaccess/bucketaccess.go:245-255 | Recording or rolling back leaves untracked at most what was untracked before and that stray |
| AccessRuns.OneAccountEver | internal/thalassa/bucketaccess/bucketaccess.go:303-348 | If at most one account carries the ownership label at first, at most one ever does: lost create replies, lost statuses, mode switches, and deletions by this controller or anybody else included |
| AccessRuns.OwnershipSafety | internal/thalassa/bucketaccess/bucketaccess.go:303-470 | After any run, even with a foreign account in the status: the next pass and the next teardown change only credentials and accounts that carry this access's label, and overwrite no Secret it does not own |
| AccessRuns.OwnerLabelInjective | internal/thalassa/bucketaccess/bucketaccess.go:394-396 | For namespaces without dots the ownership label determines namespace and name |
| AccessRuns.AccessesDoNotMeet | internal/thalassa/bucketaccess/bucketaccess.go:394-404 | Neither a pass nor a teardown of one access changes the account of any other access or its credentials |
| AccessRuns.RunKeepsAccounts | internal/thalassa/bucketaccess/bucketaccess.go:303-348 | Distinct, never reused identities, and at most one owned account, after every run, out-of-band deletion of accounts included |
| AccessRuns.TerminateSafe | internal/thalassa/bucketaccess/bucketaccess.go:625-650 | A teardown deletes credentials and accounts only if they carry the label, and touches neither Secrets nor the status |
| AccessRevocation.RevocationOnDelete | internal/thalassa/bucketaccess/bucketaccess.go:601-658 | If references and bucket names never changed, a teardown without failures leaves this access's Sid on no bucket at all, even after half-finished grant passes that were never recorded, and changes no other statement |
| AccessRevocation.TeardownFacts | internal/thalassa/bucketaccess/bucketaccess.go:601-658 | Without the finalizer nothing happens. Whatever failed: when the finalizer goes, every recorded bucket is gone or free of the Sid; statements under other Sids stay in order; only recorded and referenced buckets change |
| AccessRevocation.TeardownExact | internal/thalassa/bucketaccess/bucketaccess.go:608-623 | A teardown without failures leaves the Sid exactly on the buckets that carried it and are neither recorded nor referenced (so dropping a reference leaves its grant behind) |
| AccessRevocation.TeardownGoesOn | internal/thalassa/bucketaccess/bucketaccess.go:608-656 | The finalizer goes if the recorded buckets and IAM answer, whatever errors, short of a cut, come back from the buckets that are merely referenced |
| AccessLimits.DroppedReferenceKeepsGrant | internal/thalassa/bucketaccess/bucketaccess.go:172-179 | The run that gets there: from any state in which a bucket carries the grant, drop its reference, let one answered pass record the rest, and tear the access down without failures; the grant is still there |
| AccessRevocation.PassWrites | internal/thalassa/bucketaccess/bucketaccess.go:172-179 | A pass, cut or failing anywhere, changes referenced buckets only, only under its Sid, and leaves there the grant with the wanted actions and nothing else |
| AccessRevocation.GrantsStayAllowlisted | internal/thalassa/bucketaccess/bucketaccess.go:136-179 | In every run, across changes of preset, permissions and mode, statements under the Sid name allowlisted actions only |
| AccessRevocation.ReadOnlyStaysSo | internal/thalassa/bucketaccess/bucketaccess.go:136-179 | In every run in which the access is read-only: statements under its Sid name the seven reading actions only, so none that puts, deletes or aborts anything |
| AccessRevocation.RunKeepsLimit | internal/thalassa/bucketaccess/bucketaccess.go:136-179 | The same for any limit that the specs respect |
| AccessLimits.ReadsMustBeFaithful | internal/thalassa/bucketaccess/bucketaccess.go:495-506 | Exact condition: the agreement survives a pass under all cuts if and only if the read of the Secret does not fail while the Secret holds keys |
| AccessLimits.WithdrawalExact | internal/thalassa/bucketaccess/bucketaccess.go:415-466 | Exact condition: with a request pending, withdrawing it after a pass that was cut or failed anywhere keeps the agreement if and only if the Secret held no keys when that pass began |
| DeadKeys.FailedReadKillsKeys | internal/thalassa/bucketaccess/bucketaccess.go:495-506 | One failed read of a Secret that is there, and a cut right after recording the new credential: through every run afterwards that neither rotates nor takes the keys away, the Secret holds the keys of the deleted credential, and answered passes complete and report Ready |
| DeadKeys.WithdrawalKillsKeys | internal/thalassa/bucketaccess/bucketaccess.go:415-466 | The same after a rotation that is cut at that point and then withdrawn |
| DeadKeys.DeadKeysStay | internal/thalassa/bucketaccess/bucketaccess.go:419-423 | Keys of a deleted credential stay in the Secret through every such run, under passes with any fates, re-specifications, teardowns and whatever others do to IAM and buckets, and the next answered pass reports Ready over them |
| DeadKeys.PassHolds | internal/thalassa/bucketaccess/bucketaccess.go:419-423 | A pass without a rotation request keeps every credential, the stored keys and the tracked credential, whether or not they belong together |
| AccessLimits.RecoveredCredentialIsRolledBack | internal/thalassa/bucketaccess/bucketaccess.go:238-255 | Exact condition: while the Secret holds the keys of a live credential and no rotation is due, that credential is deleted if and only if the status has lost track of it, the listing found it again, the status write failed and the rollback took effect |
| AccessLimits.ModeSwitchLosesCredential | internal/thalassa/bucketaccess/bucketaccess.go:157-170 | A run that gets there from any settled access: to an existing external principal and back, then one refused status write; the Secret still holds the keys of the deleted credential |
| AccessLimits.ExternalModeForgets | internal/thalassa/bucketaccess/bucketaccess.go:157-170 | A completed pass in external mode tracks none of the owned account's live credentials any more, and deletes none |
| AccessExternal.ExternalPassServes | internal/thalassa/bucketaccess/bucketaccess.go:156-204 | A completed pass in external mode: the principal exists, every referenced bucket grants it exactly the wanted actions, no rotation was requested, and IAM and Secrets are as they were |
| AccessReport.CompletedPassReports | internal/thalassa/bucketaccess/bucketaccess.go:143-202 | A completed managed pass, from any state at all, names in its status the account and its ARN, the actions and the buckets of the references in order; the Secret asked for is owned and holds the access key on record, those buckets and the endpoint if and only if its write was not refused with not-found, and is absent otherwise |
| AccessReport.CompletedPassGrants | internal/thalassa/bucketaccess/bucketaccess.go:152-179 | Exact condition, from any state and in either mode: after a completed pass every referenced bucket's policy allows the principal that the status names the resolved actions on that bucket and its objects, and says nothing else under the Sid, if and only if no write of the managed Secret was refused with not-found; otherwise the empty principal, with the rotation request as it was |
| AccessReport.PreparedNames | internal/thalassa/bucketaccess/bucketaccess.go:150-178 | The same for every pass that reaches the grants: the principal it goes on to grant to is the one in the status, or the empty one, by that condition |
| AccessLimits.MissingNamespaceGrantsNobody | internal/thalassa/bucketaccess/bucketaccess.go:694-705 | The input: the namespace of the Secret is not there and every other call is answered; the pass completes and reports Ready without a Secret, every referenced bucket grants the empty principal, the status names the account, and a pending request stays |
| AccessReport.ReadyIsEarned | internal/thalassa/bucketaccess/bucketaccess.go:172-204 | Whatever fails or is cut, in either mode: a pass that writes Ready has granted every referenced bucket, with the actions that the status names, to the principal that the status names, or to the empty one if a write of the managed Secret was refused with not-found |
| AccessOutcome.CompletesExactly | internal/thalassa/bucketaccess/bucketaccess.go:101-214 | Exact condition, in both modes and from every state: if nothing stops it, a pass completes if and only if the organisation is given, the permissions resolve, every referenced bucket is named, created, ready and there, and the Secret asked for is allowed and not owned or controlled by others, or the principal exists and no rotation is requested; errors from reading the Secret, listing credentials or deleting a superseded one do not stop it. With any fates it completes only then, and only if the lookups, grants, status writes and Secret calls were answered; if it fails with its status writes answered it says Degraded |
| AccessOutcome.WaitsExactly | internal/thalassa/bucketaccess/bucketaccess.go:106-130 | With status writes answered: what the first reference that is not ready lacks decides whether the pass waits or fails, and what the status says |
| AccessOutcome.ReadyNeverWaits | internal/thalassa/bucketaccess/bucketaccess.go:106-130 | No other pass waits |
| AccessOutcome.PassCreates | internal/thalassa/bucketaccess/bucketaccess.go:303-357 | Whatever fails or is cut, in either mode: at most one account is created, with the name the spec gives or namespace-name and the label namespace.name, and every credential that is new belongs to the account on record |
| AccessSecrets.PassConfined | internal/secretref/namespace.go:32-41 | A pass touches no Secret but the one the resource asks for, in its own namespace unless another is given and the manager allows crossing |
| AccessRevocation.TeardownDeletesIam | internal/thalassa/bucketaccess/bucketaccess.go:625-656 | Whatever failed: when the finalizer goes in managed mode, the labelled account on record is gone, and its tracked credential with it |
| AccessRevocation.IamLeftBehindExactly | internal/thalassa/bucketaccess/bucketaccess.go:625-650 | Exact condition: a labelled account outlives a teardown without failures if and only if the mode is external or the account is not the one on record; a credential on it is spared if and only if that holds or it is not the tracked one |
| SharedBuckets.ServedThroughout | internal/thalassa/bucket/bucket.go:370-385 | A served access stays served through any number of steps of the Bucket controller and other accesses, on any buckets in any order |
| SharedBuckets.NothingNewThroughout | internal/thalassa/bucket/bucket.go:370-385 | No number of co-owner steps puts a statement under an access's Sid, so they are among the events the run theorems allow |
| AccessSafety.ReconcileSafe | internal/thalassa/bucketaccess/bucketaccess.go:101-214 | In every mode, with every fate, a pass adds at most one account, its own and then the only one, and leaves the accounts, credentials and Secrets of others alone |
| AccessSafety.PickOwnedFacts | internal/thalassa/bucketaccess/bucketaccess.go:377-392 | A match carries the label, and has the wanted name if any owned account has it; no match means no account carries the label |
| AccessSafety.EnsureAccountFacts | internal/thalassa/bucketaccess/bucketaccess.go:303-348 | An account is created only if none carries the label; the answer carries it; credentials stay |
| AccessSafety.EnsureCredentialOnlyCredsOf | internal/thalassa/bucketaccess/bucketaccess.go:406-470 | The credential stage changes credentials of the given account only |
| AccessSafety.EnsureManagedSafe | internal/thalassa/bucketaccess/bucketaccess.go:216-273 | The managed stage reaches no account, credential or Secret of others |
| AccessAgreement.EnsureCredentialFacts | internal/thalassa/bucketaccess/bucketaccess.go:406-470 | While keys are stored and no rotation is due the tracked credential is reused and IAM unchanged; otherwise only a fresh credential, live on the account, comes back |
| AccessAgreement.RotatedExactlyWhenRequested | internal/thalassa/bucketaccess/bucketaccess.go:462-469 | In every state: rotated is reported exactly when rotation was requested, and then the credential is a new one |
| AccessAgreement.StampedIsOurs | internal/thalassa/bucketaccess/bucketaccess.go:574-583 | A written Secret is recognised as owned at the next write, in the same and in another namespace |
| AccessAgreement.StampedExactly | internal/thalassa/bucketaccess/bucketaccess.go:560-586 | In its own namespace the access becomes the controller beside the other owners, refused exactly if another object controls the Secret; in another namespace it leaves the label namespace.name and the owners |
| AccessAgreement.ControlledExactly | internal/thalassa/bucketaccess/bucketaccess.go:574-583 | Another object controls the Secret exactly if the first owner reference that claims control differs from the access in group, kind or name |
| AccessAgreement.WriteSecretFacts | internal/thalassa/bucketaccess/bucketaccess.go:526-586 | The Secret afterwards is unchanged, absent after a not-found, or holds exactly the issued keys; success means the latter |
| AccessAgreement.RecordCredentialFacts | internal/thalassa/bucketaccess/bucketaccess.go:244-272 | Recording and delivering, cut anywhere, keeps the invariant; an answer without error means recorded, and stored and live if and only if the Secret was not refused with not-found |
| AccessAgreement.EnsureManagedFacts | internal/thalassa/bucketaccess/bucketaccess.go:216-273 | The managed stage keeps the invariant; an answer without error means settled with the ARN of the account on record, or, after a not-found, no Secret and an empty principal |
| AccessGrants.GrantFromFacts | internal/thalassa/bucketaccess/bucketaccess.go:172-178 | The grant loop stopped anywhere: other Sids untouched, earlier grants kept, changed buckets granted; success grants all |
| AccessGrants.RevokeGrantedFacts | internal/thalassa/bucketaccess/bucketaccess.go:608-613 | The first sweep, stopped anywhere, only takes the Sid away; success frees every recorded bucket that is there |
| AccessGrants.RevokeRefsFacts | internal/thalassa/bucketaccess/bucketaccess.go:615-623 | The second sweep only takes the Sid away, and without failures frees every referenced bucket |
| AccessGrants.ResolveFromFacts | internal/thalassa/bucketaccess/bucketaccess.go:275-301 | Resolved targets are the buckets of the references in order; ready buckets always resolve |
| AccessGrants.ResolveExactly | internal/thalassa/bucketaccess/bucketaccess.go:275-301 | Exact condition: the references resolve if and only if every one is given, looked up, found, named, created and ready; otherwise the first that is not decides the failure |
| AccessGrants.GrantedExactly | internal/thalassa/bucketaccess/policy.go:113-140 | What the theorems call granted is: the bucket is there, its policy has a version, allows the principal the actions on the bucket and its objects, and says nothing else under the Sid |
| AccessReport.WriteSecretWrites | internal/thalassa/bucketaccess/bucketaccess.go:526-586 | A successful write leaves an owned Secret with the keys, buckets and endpoint given, a not-found leaves none; other Secrets stay |
| AccessHandler.Handler.ReconcileOnce | internal/thalassa/bucketaccess/bucketaccess.go:101-214 | The imperative pass ends in exactly the world and outcome of the specification function Reconcile that the theorems above are about |
| AccessHandler.Handler.PrepareAndGrant | internal/thalassa/bucketaccess/bucketaccess.go:131-179 | The same from the progress report to the end of the pass |
| AccessHandler.Handler.EnsureManagedCredentials | internal/thalassa/bucketaccess/bucketaccess.go:216-273 | IAM, Secrets, status, in-memory status and answer equal the specified managed stage |
| AccessHandler.Handler.EnsureServiceAccount | internal/thalassa/bucketaccess/bucketaccess.go:303-348 | Accounts, next identity and answer equal the specified account stage, whose facts are EnsureAccountFacts |
| AccessHandler.PickOwnedServiceAccountId | internal/thalassa/bucketaccess/bucketaccess.go:377-392 | The single loop with a fallback finds an exact name match among owned accounts, else the first owned one |
| AccessHandler.Handler.EnsureAccessCredential | internal/thalassa/bucketaccess/bucketaccess.go:406-470 | Credentials, in-memory status and answer equal the specified credential stage |
| AccessHandler.Handler.FindByAccessKey | internal/thalassa/bucketaccess/bucketaccess.go:424-431 | Finds the live credential of the account with the given access key, if there is one |
| AccessHandler.Handler.RecordAndDeliver | internal/thalassa/bucketaccess/bucketaccess.go:244-272 | Persist, roll back or deliver as specified, in the in-memory and the stored status |
| AccessHandler.Handler.WriteCredentials | internal/thalassa/bucketaccess/bucketaccess.go:526-586 | The Secrets map and the answer equal the specified write: refused if not owned, other entries kept |
| AccessHandler.SecretOwnedBy | internal/thalassa/bucketaccess/bucketaccess.go:588-599 | True exactly if a controller reference with the uid of this resource and kind BucketAccess, or the label namespace.name, is on the Secret |
| AccessHandler.Handler.ResolveExternalPrincipal | internal/thalassa/bucketaccess/principal.go:37-70 | A known member or account gives its ARN and identity; blank parts, unknown ones and failed calls give errors |
| AccessHandler.Handler.GrantExternal | internal/thalassa/bucketaccess/bucketaccess.go:157-170 | External mode: the in-memory status forgets the managed credential and names the principal |
| AccessHandler.Handler.ResolveBuckets | internal/thalassa/bucketaccess/bucketaccess.go:275-301 | The loop with early exits equals the specified resolution |
| AccessHandler.Handler.EnsureBucketGrant | internal/thalassa/bucketaccess/bucketaccess.go:508-524 | One read-upsert-write of a bucket, with its failures |
| AccessHandler.Handler.GrantBuckets | internal/thalassa/bucketaccess/bucketaccess.go:172-179 | The grant loop equals the recursive one; on success it returns all names in order |
| AccessHandler.Handler.ClearRotateAnnotation | internal/thalassa/bucketaccess/bucketaccess.go:472-493 | The annotation is gone exactly if it was absent or the update took effect |
| AccessHandler.Handler.ConcludePass | internal/thalassa/bucketaccess/bucketaccess.go:179-204 | Clears the request only after a rotation, then reports Available and the granted buckets |
| AccessHandler.Handler.RemoveBucketGrant | internal/thalassa/bucketaccess/bucketaccess.go:660-679 | One read-remove-write of a bucket; a missing bucket is success |
| AccessHandler.Handler.DeleteManagedIam | internal/thalassa/bucketaccess/bucketaccess.go:625-650 | Deletes the tracked credential and then the account only in managed mode and only if labelled, stopping at the first failure |
| AccessHandler.Handler.Teardown | internal/thalassa/bucketaccess/bucketaccess.go:601-658 | The imperative teardown ends in exactly the specified world, finalizer included |
| AccessHandler.Handler.SetErrorCondition | internal/thalassa/bucketaccess/bucketaccess.go:694-705 | Marks the status Degraded and persists it; the pass ends in error, interrupted if cut, or is put off without an error if the cause was a not-found and the status was written |
| AccessHandler.Handler.FailMissing | internal/thalassa/bucketaccess/bucketaccess.go:264-267 | The managed stage returns that dropped error as no error, with an empty principal |
| CoOwnership.Confluence | internal/thalassa/bucketaccess/policy.go:106-141 | From any remote record, after any interleaving of Bucket passes and grants in which every controller stepped once: the record is as the Bucket's spec says, every grant is there and alone under its Sid, no controller wants a change, and all further steps change nothing |
| Convergence.OneResult | internal/thalassa/bucketaccess/policy.go:106-141 | Confluence to one result: two complete interleavings from one record agree in every field and in the statements with their multiplicities; only the order of grants can differ |
| CoOwnership.AgreementIffCompatible | internal/thalassa/bucketaccess/policy.go:106-141 | Exact condition, for any grants under managed Sids: a joint fixpoint exists if and only if no two grants share a Sid and spec.policy names a version and defines an access's Sid only as that very grant; otherwise every record is rewritten by somebody, for ever |
| CoOwnership.GrantTracking | internal/thalassa/bucket/bucket.go:370-385 | After any interleaving, a Sid that spec.policy does not define is in the policy exactly if its access last granted, or never stepped and it was there: grants are not dropped, revoked ones not brought back |
| CoOwnership.AccessTouchesOnlyItsOwn | internal/thalassa/bucketaccess/policy.go:126-154 | Granting and revoking keep every statement under another Sid, in order, and every other field |
| CoOwnership.BucketPassKeepsManaged | internal/thalassa/bucket/bucket.go:370-385 | A Bucket pass keeps every statement whose Sid starts with either managed prefix and is not defined by the user, in order; without a parsed policy it keeps the whole policy |
| CoOwnership.StepSettles | internal/thalassa/bucket/bucket.go:343-433 | Whoever steps is settled afterwards, and whoever was settled stays so |
| Policy.UpsertManagedStatement | internal/thalassa/bucketaccess/policy.go:106-141 | The loop leaves a document that carries the Sid, under it nothing but statements with effect Allow for that principal, those actions, and as resources the bucket and its objects; a missing version becomes 2012-10-17; all other statements are as they were, in order |
| Policy.UpsertAllows | internal/thalassa/bucketaccess/policy.go:113-140 | The same of the specified upsert, which adds one statement if the Sid was not there and none otherwise |
| Policy.GrantAllows | internal/thalassa/bucketaccess/policy.go:113-124 | Holding the grant statement and nothing else under its Sid means exactly: allowing that principal those actions on that bucket and its objects, and saying nothing else under the Sid |
| Policy.RemoveManagedStatement | internal/thalassa/bucketaccess/policy.go:144-154 | The loop equals the specified removal |
| Policy.UpsertGrants | internal/thalassa/bucketaccess/policy.go:126-140 | Afterwards the grant is there, nothing else is under its Sid, a version is set, and all other statements are as they were, in order |
| Policy.UpsertFixpoint | internal/thalassa/bucketaccess/policy.go:106-141 | An upsert changes nothing exactly on documents with a version that hold the grant and nothing else under its Sid |
| Policy.RemoveUndoesUpsert | internal/thalassa/bucketaccess/policy.go:126-154 | Removing after an upsert leaves the statements that removing alone leaves |
| Policy.OthersDrops | internal/thalassa/bucketaccess/policy.go:144-154 | Removal keeps exactly the statements under other Sids, and is the identity if there is none under this one |
| Policy.BuildSidPart | internal/thalassa/bucketaccess/policy.go:47-62 | Each character that is no letter or digit of any script and no dash becomes a dash, position by position; the empty part becomes x |
| Policy.SanitizedIsPlain | internal/thalassa/bucketaccess/policy.go:41-62 | Exact condition for the documented alphabet: the part is made of ASCII letters, digits and dashes if and only if it holds no other letter |
| Policy.LettersDoNotMatter | internal/thalassa/bucketaccess/policy.go:47-62 | For parts without letters beyond ASCII, as in resource names, which letters count beyond ASCII makes no difference |
| Policy.ManagedSidIsManaged | internal/thalassa/bucketaccess/policy.go:41-62 | Every Sid built for an access is recognised as managed, and is tosm-namespace-name if both are made of ASCII letters, digits and dashes |
| Policy.SidsEqualExactly | internal/thalassa/bucketaccess/policy.go:43-62 | Exact condition, for all inputs: two accesses share a Sid if and only if their rewritten parts are equal, or one namespace extends the other by a dash and a text that the other name starts with |
| Policy.ManagedSidInjective | internal/thalassa/bucketaccess/policy.go:43-62 | So Sids differ if no part is rewritten and no namespace holds a dash |
| Policy.ManagedSidCollides | internal/thalassa/bucketaccess/policy.go:43-62 | Both ways to collide occur: accesses of two namespaces, and two accesses of one namespace by a dot in a name |
| BucketUpdate.DriftIsExact | internal/thalassa/bucket/bucket.go:343-433 | For a parsable or empty policy drift is reported exactly if the update would change the record, and not on the updated record; with an unparsable one nothing is ever repaired |
| BucketUpdate.MergeFixpoint | internal/thalassa/bucket/bucket.go:370-385 | Merging is the identity exactly on documents that are the user's statements followed by managed ones the user does not define |
| BucketUpdate.MergeIdempotent | internal/thalassa/bucket/bucket.go:370-385 | Merging twice is merging once |
| BucketUpdate.MergePreservingManagedStatements | internal/thalassa/bucket/bucket.go:370-385 | The two loops equal the specified merge |
| BucketUpdate.BucketRequiresUpdate | internal/thalassa/bucket/bucket.go:387-433 | Reports drift exactly if public, versioning (Disabled if none is given), object lock, labels or annotations differ from the spec, or the policy is not the user's statements and version followed by managed statements the user does not define |
| BucketUpdate.BuildUpdateRequest | internal/thalassa/bucket/bucket.go:343-366 | Fails exactly on an unparsable policy; otherwise applying the request makes every record what the spec says, in each of those fields |
| BucketUpdate.DriftMeansNotAsDesired | internal/thalassa/bucket/bucket.go:387-433 | The drift that the passes act on is exactly that |
| BucketUpdate.UpdateMakesAsDesired | internal/thalassa/bucket/bucket.go:343-366 | The update that the passes send does exactly that, and leaves the policy alone if the spec has none |
| BucketSafety.SuffixModeSafety | internal/thalassa/bucket/bucket.go:96-132 | With suffixes on for life, after any run (failed status writes, loss, recreation, anything done by others), the next pass and the next teardown change no bucket of anybody else, unless somebody has created a bucket under the very name on record |
| BucketSafety.PassSparesExactly | internal/thalassa/bucket/bucket.go:298-341 | Exact condition: in any state with suffixes on, every pass spares the buckets of others if and only if the recorded name does not lead to a foreign bucket with drift to repair |
| BucketSafety.NameReuseUsurps | internal/thalassa/bucket/bucket.go:298-321 | Two events reach the failing state from any recorded bucket: it is deleted, and somebody else creates one of that name |
| BucketSafety.AllocationExact | internal/thalassa/bucket/bucket.go:180-252 | Exactly which buckets a creating pass makes, in terms of the state it finds and the fates of its calls: it gets to a turn if and only if it begins and every turn before goes on; it creates one bucket for each such turn whose name is free and whose create call takes effect; more than one if and only if the reply to such a call is lost and the call of a later turn it gets to takes effect too |
| BucketSafety.LostReplyMakesTwo | internal/thalassa/bucket/bucket.go:233-241 | A lost reply in the first turn and an answer in the second leave two buckets |
| BucketSafety.AllocationBounds | internal/thalassa/bucket/bucket.go:174-257 | At most 5 names are tried, 1 without suffixes; buckets are created only under free names, never twice; existing buckets stay as they are |
| OwnBuckets.BucketsDoNotPileUp | internal/thalassa/bucket/bucket.go:96-258 | In every run, in every mode: the resource has at most one bucket, plus those off the record at first, plus one for each create call that took effect although its reply was lost, the pass was cut, or the status could not be written |
| OwnBuckets.PassStrays | internal/thalassa/bucket/bucket.go:96-107 | One pass, whatever its fates, adds at most the buckets it created without recording them to those off the record |
| FixedNames.RecordsAreLegitimate | internal/thalassa/bucket/bucket.go:180-228 | With a fixed name, over all runs: every bucket on record was made by this resource, or carried the required labels with adoption enabled when it was recorded, unless somebody has since created a bucket under the name on record |
| FixedNames.FixedNameRecovery | internal/thalassa/bucket/bucket.go:96-341 | Exact condition, after any run with a fixed name: four answered passes end with a recorded bucket that is there, as the spec says, and available if the provider calls it ready, if and only if the resource is not stuck, that is, no bucket of its is on record and there while the fixed name leads to one that may not be adopted |
| FixedNames.StuckStays | internal/thalassa/bucket/bucket.go:207-219 | A stuck resource stays stuck, and the store as it is, under passes with any fates |
| FixedNames.LostReplyGetsStuck | internal/thalassa/bucket/bucket.go:233-241 | With adoption off, one lost reply to the create call leaves the resource stuck on its own bucket |
| BucketReport.AvailableIsEarned | internal/thalassa/bucket/bucket.go:153-341 | Whatever fails or is cut, in both modes: a pass that changes the status and leaves it Available has recorded a bucket that is there and that the provider calls ready, and has changed no bucket that was there; unless the bucket on record was lost, and then it has cleared the record and kept the conditions |
| BucketReport.LostStaysAvailable | internal/thalassa/bucket/bucket.go:298-308 | The exception occurs: whatever was said of a lost bucket, Available included, is still said after the answered pass that notices |
| BucketReport.CreatingPassReports | internal/thalassa/bucket/bucket.go:153-258 | Whatever its fates: a creating pass changes no bucket that was there and creates buckets as the spec says only; if it completes, created or adopted, it has recorded a bucket and says Available exactly if the provider calls it ready; if it fails with its status writes answered it says Degraded |
| BucketReport.FailureIsReported | internal/thalassa/bucket/bucket.go:499-507 | Every pass that fails although its status writes are answered leaves Degraded, and one that completes does not, unless the bucket was lost |
| BucketReport.CompletedMeansAsDesired | internal/thalassa/bucket/bucket.go:298-341 | A pass with something on record completes only with the bucket recorded and as the spec says, or without a record if the bucket was lost |
| BucketReport.FinalizerGuardsBucket | internal/thalassa/bucket/bucket.go:460-484 | Whatever fails: when the finalizer goes, no bucket is left under the name on record, or without one under a fixed name; with suffixes and no name on record no bucket is touched |
| BucketReport.TeardownExactly | internal/thalassa/bucket/bucket.go:460-484 | Exact condition: with a name to trust the finalizer goes if and only if the delete call is answered and the update takes effect, and exactly the one bucket is removed if that call takes effect; without one the store stays and only the update decides; without the finalizer nothing happens |
| BucketSafety.AdoptionGate | internal/thalassa/bucket/bucket.go:207-228 | With a fixed name a pre-existing bucket enters the status only if adoption is enabled and every required label matches; otherwise the recorded bucket was created by this pass |
| BucketProgress.BucketRecovery | internal/thalassa/bucket/bucket.go:96-341 | After any run with suffixes on, three passes whose calls are answered, finding a free name should they need one, end with a recorded bucket that is there, as the spec says, and reported available exactly if the provider calls it ready |
| BucketProgress.ThreePassesSuffice | internal/thalassa/bucket/bucket.go:96-341 | The same from every state in which an identity is recorded with a name only |
| BucketProgress.CreateConverges | internal/thalassa/bucket/bucket.go:153-258 | A suffixed creating pass whose calls are answered skips taken names, creates exactly one bucket, as the spec says, and records its name and identity |
| BucketProgress.NewBucketsAreAsDesired | internal/thalassa/bucket/bucket.go:162-205 | What a create call sends is as the spec says, without any statement but the user's |
| BucketProgress.RepairConverges | internal/thalassa/bucket/bucket.go:298-341 | A repair whose calls are answered records the bucket, which is then as the spec says |
| BucketProgress.RepairReportsReady | internal/thalassa/bucket/bucket.go:312-341 | A completed pass over a bucket that is there reports it available exactly if the provider calls it ready and it was as the spec says |
| BucketProgress.LostBucketIsRecreated | internal/thalassa/bucket/bucket.go:298-308 | A bucket that is gone is forgotten, and nothing else, by the pass that notices; the next pass is a creating one |
| BucketSafety.TeardownSpares | internal/thalassa/bucket/bucket.go:460-484 | Exact condition: deletion spares the buckets of others if and only if the name it trusts leads to none of them, or there is none, or the call has no effect |
| BucketSafety.RefusedAdoptionStillDeleted | internal/thalassa/bucket/bucket.go:120-132 | A fixed-name bucket whose adoption was refused is deleted when the resource goes |
| BucketSafety.PassIsSafe | internal/thalassa/bucket/bucket.go:96-107 | With suffixes on, a pass keeps the recorded name leading to an own bucket, and every foreign bucket unchanged |
| BucketSafety.RepairStaysPut | internal/thalassa/bucket/bucket.go:298-341 | A repair changes the named bucket only, never its maker, and the recorded name only to that bucket's, or to none if it is gone |
| BucketHandler.Handler.Create | internal/thalassa/bucket/bucket.go:153-258 | The retry loop with lastErr equals the specified allocation; the fallback error branch after the loop is unreachable |
| BucketHandler.Handler.TryName | internal/thalassa/bucket/bucket.go:207-252 | One turn of the loop: try again, or end the pass, as specified; a completed pass calls the recorded bucket available exactly if the provider calls it ready |
| BucketHandler.Handler.AdoptExisting | internal/thalassa/bucket/bucket.go:217-227 | A taken fixed name is adopted or refused |
| BucketHandler.Handler.Repair | internal/thalassa/bucket/bucket.go:298-341 | One repair pass ends in exactly the specified store, status and outcome |
| BucketHandler.Handler.ReconcileOnce | internal/thalassa/bucket/bucket.go:96-107 | Creates, repairs or refuses by what the status records; Available is written only for a recorded bucket that the provider calls ready, unless the bucket was lost |
| BucketHandler.Handler.Teardown | internal/thalassa/bucket/bucket.go:460-484 | Ends in the specified world; if the finalizer goes, no bucket is left under the trusted name |
| BucketNames.JoinBucketName | internal/thalassa/bucket/bucket.go:269-296 | Slices stay in range, and the result has at most 63 characters exactly if the base is not blank or the trimmed suffix has at most 63 |
| BucketNames.JoinedNameKeepsSuffix | internal/thalassa/bucket/bucket.go:269-289 | A suffix of 1 to 61 characters is kept in full after as much of the base as fits in 63 characters, less a dash where the base is cut |
| Text.TrimTakesBlanks | internal/thalassa/bucket/bucket.go:270-271 | Trimming takes away blanks at both ends and nothing else |
| BucketNames.JoinedNameOfOne | internal/thalassa/bucket/bucket.go:269-296 | A blank base gives the suffix; a blank suffix gives the base, and a longer one gives itself, cut at 63 characters |
| BucketNames.JoinedNamesDiffer | internal/thalassa/bucket/bucket.go:269-289 | For one base, different suffixes of equal length give different names |
| Adoption.CheckAdoptionEligibility | internal/thalassa/bucket/adoption.go:66-90 | Eligible exactly if adoption is enabled and every configured label is on the bucket with its value, or without a configuration the adoptable label with the value true |
| Adoption.ParseLabelPairs | internal/thalassa/bucket/adoption.go:42-63 | The map of the trimmed pairs, later ones winning, the default if there is none, an error exactly on an entry without a key and an equals sign |
| Adoption.PairExactly | internal/thalassa/bucket/adoption.go:48-57 | An entry is split at its first equals sign and both sides are trimmed; it is refused exactly without an equals sign or without a key |
| Adoption.LabelsRoundTrip | internal/thalassa/bucket/adoption.go:42-63 | A printed list of pairs reads back as the map it denotes, empty values and values with equals signs included, an empty list as the default; it is refused if and only if a key is empty |
| Conditions.ConditionMachine | internal/conditions/standard.go:49-67 | After any non-empty history of calls on a list with unique types: types stay unique, exactly one of Available, Progressing and Degraded is true, Ready equals Available, only the last call decides, other conditions are untouched |
| Conditions.OneCall | internal/conditions/standard.go:49-67 | One call leaves exactly three of the conditions Ready, Available, Progressing and Degraded, with status, reason and message determined by its arguments |
| Conditions.CallsKeepList | internal/conditions/standard.go:49-67 | Any history keeps types unique and all other conditions in order |
| Conditions.ConditionList.SetStandardConditions | internal/conditions/standard.go:49-67 | The list behind the reference afterwards is the specified one |
| Conditions.ConditionList.SetStatusCondition | internal/conditions/standard.go:52-53 | Overwrites the first condition of that type in place, or appends |
| Conditions.ConditionList.RemoveStatusCondition | internal/conditions/standard.go:54 | Drops every condition of that type, keeping order |
| Permissions.ResolutionFailsExactly | internal/thalassa/bucketaccess/permissions.go:111-149 | Fails exactly on a trimmed non-empty action that is not allowed, on a list with nothing left, or on an unknown preset |
| Permissions.GrantedActionsAreAllowed | internal/thalassa/bucketaccess/permissions.go:90-149 | Whatever is granted is non-empty, free of repetitions and allowlisted |
| Permissions.CustomListOrder | internal/thalassa/bucketaccess/permissions.go:113-138 | A custom list is granted as exactly its trimmed non-empty entries, in order of first occurrence |
| Permissions.PresetsGrant | internal/thalassa/bucketaccess/permissions.go:50-149 | Without a list of its own ReadOnly grants exactly the seven reading actions, none of which puts, deletes or aborts anything; the empty preset and ReadWrite grant exactly the documented nineteen |
| Permissions.PresetLists | internal/thalassa/bucketaccess/permissions.go:50-106 | The three lists are exactly the documented actions, and the allowlist adds the bucket's location and policy status to the nineteen |
| Permissions.ResolvePermissions | internal/thalassa/bucketaccess/permissions.go:111-149 | Equals the specified resolution; ReadOnly gives exactly the seven reading actions, the empty preset and ReadWrite the nineteen |
| Permissions.FilterCustom | internal/thalassa/bucketaccess/permissions.go:112-138 | The loop with its seen map and two lists equals the specified answer |
| Permissions.CollectAllowed | internal/thalassa/bucketaccess/permissions.go:92-106 | The map holds exactly the actions of both lists |
| Namespaces.ParsedIsCanonical | internal/secretref/cache.go:32-51 | Fails exactly on a part that is no DNS label; otherwise strictly increasing and exactly the distinct trimmed non-empty parts |
| Namespaces.LessExactly | internal/secretref/cache.go:49 | Increasing means: cut short, or smaller at the first difference |
| Namespaces.ParsePrintParse | internal/secretref/cache.go:32-51 | Parsing the comma-join of its own output gives the same list |
| Namespaces.SameNamesSameList | internal/secretref/cache.go:32-51 | The result depends on the set of names only |
| Namespaces.HelmListParses | chart/thalassa-objectstorage-manager/templates/_helpers.tpl:94-97 | For all chart values: what is printed is refused if and only if a value mentions a name that is no DNS label; otherwise it parses to the canonical list of exactly the names mentioned |
| Namespaces.ParseNamespaces | internal/secretref/cache.go:32-51 | The loop with its seen map, the early error and the final sort equal the specified parse |

## Left out

- The random generator: the suffix of a turn is any text.
- Two controllers interleaving between the read and the write of one bucket: the code has no version check, so only atomic steps are modelled. Confluence starts from an arbitrary record, so it covers repair after a lost update.
- Retries inside one status or annotation update, and the read before the write in them, are one call with one fate.
- The library helper that sets the controller reference of a Secret is not part of the repository; it is modelled as comparing references by group, kind and name.
- The table of Unicode letters and digits is a parameter of Policy.BuildSidPart; Sids of accesses are modelled for ASCII names, which are all that resources can have.
- Parsing of the JSON text in spec.policy: the outcome is an input. Statements hold a principal list, actions and resources as values.
- ARN texts: a principal ARN is the pair of organisation and identity, so different pairs are different ARNs.
- Empty key material and accounts without an identity, which the API does not return.
- Labels of accounts and Secrets other than the ownership label, descriptions, expiry, scopes and metadata of what is created.
- Deletion of an account does not delete its credentials in the model; the remote service may.
- Reordering or delayed visibility of IAM listings.
- Timestamps, events, log and error texts, usage figures, endpoints and regions beyond what is checked, requeue delays. A pass ends completed, waiting, in error or interrupted.
- The conditions in a status are given by the last call that set them, which ConditionMachine shows to decide the standard ones.
- Adding the finalizer, suspension, feature gates, readiness checks, event predicates, caches, leader election, flags and client set-up.
- SecretCacheOptions, which builds a constant-shaped map from the parsed namespaces.
- Sorting of the rejected actions in the error text of the permission check.
