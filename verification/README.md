# SurrealDB credential operator: a verified model

The operator turns a `SurrealDBCredential` into a SurrealDB system user and a Kubernetes Secret that
holds its login. It rotates the password, undoes everything behind a finalizer on deletion, and checks
every request against a tenant policy. This project models that logic in Dafny and proves what it keeps
over whole runs, with calls failing, the process stopping and other writers acting at any point.

`dafny verify dfyconfig.toml` checks the whole project.

## How the model is built

- `Cluster` holds the stores (credentials, Secrets, policies, providers, the remote user table) with the
  Kubernetes rules: create fails on an existing name, update fails on a stale resource version, spec and
  status are written separately, a write that changes nothing keeps the version, an object being deleted
  goes with its last finalizer. A call is answered, or lost, or takes effect and still reports failure.
- `Server` is what a SurrealDB server does with a text it is sent: a text that cannot be read changes
  nothing, a script runs statement by statement. `SurrealQL` and `QueryMeaning` are the lexer and parser it
  reads with. So a login lands where the printed names are read, not where they were meant.
- `Protocol` is one reconcile pass of the credential controller as a machine that makes one API call per
  step. Events are a step with its fault, clock and drawn password; an edit of the stores by anybody; the
  begin of a pass; a stop of the process. `Cleanup`, `Deletion`, `Ownership`, `Schedules`, `Ages`,
  `StoppedPass`, `Resolution`, `Convergence`, `FixedPoint`, `Authority` and `Logins` prove properties of its
  runs. `Grounds` says what a pass acts on, `Frames` what it leaves alone, `Reports` and `Statuses` what it
  tells in the status, `Openings` how the finalizer and the force annotation steer it.
- `Reconciler` is the same controller in the form of its source: a class whose methods read the stores,
  change objects in memory, and write them back with early exits. Each execution, under any script of
  faults and edits, is shown to be a run of the machine, so everything proved over runs holds of it.
- `Rotation` (`internal/rotation`), `Policy` and `Username` (`internal/policy`), `Identifiers`, `Queries`,
  `Redaction` and `Tls` (`internal/surreal`), `TargetSecret` and `Passwords` (`internal/secrets`) and
  `Providers` (the provider controller) follow the source files. `QueryMeaning` proves what the printed
  queries are read as, `Misreading` which names are read as something else or make a query unreadable.
- `Platform.Libraries` stands for code the operator calls but does not define: Unicode lower-casing and
  printability, SHA-256, PEM and X.509 parsing, endpoint URLs. Results hold for every choice of these, or
  name the fact they use (`ProperDigest`: a digest is 64 lower-case hexadecimal digits).

Times count nanoseconds; a stored time comes back truncated to whole seconds, as the API server keeps it.

## Where the code falls short of a natural reading

- With a period that is not a whole number of seconds, a completed pass need not be a fixed point, and the
  stored next rotation may already lie in the past: truncation loses a second exactly when clock and period
  carry. `FixedPoint.AgainChangesNothingIff`, `Rotation.FixedPointIff` and `Rotation.StoredNextAheadIff` give
  the exact conditions, `Rotation.FractionalPeriodUnsettled` and `Rotation.FractionalPeriodFallsBehind`
  concrete inputs.
- A pass that writes the Secret and stops before its final status write leaves a password of which no
  rotation is recorded. When none was recorded before, the next pass takes that password for new and keeps
  it however old it is, over Ready (`StoppedPass.StoppedPassOutlivesPeriod`, `StoppedPass.TenHoursOld`). A
  completed pass bounds the age of the password over all runs exactly when a rotation is recorded or the
  pass makes a new one: `StoppedPass.AgeIsBoundedIff`.
- `EscapeIdent` escapes backticks but not backslashes. A name with a backslash is never read as itself
  (`SurrealQL.NameReadsBackIff`). It still closes where it ends exactly when neither a backtick of its own
  nor its end comes after an odd number of backslashes (`SurrealQL.ClosesItselfIff`): one trailing backslash
  swallows the closing backtick, two are read as one (`SurrealQL.TrailingBackslashes`).
- So a definition can land outside what the policy grants. Exactly when: `Logins.LoginsAreGrantedIff`; a
  granted request whose login lands elsewhere: `Logins.GrantedLoginLandsElsewhere`.
- Hash framing tells an identity apart from all others exactly when no field holds a NUL
  (`Username.UniquelyFramedIff`). The queries refuse control characters in namespace and database, and
  Kubernetes names hold none, so every accepted definition meets the condition.
- A target can be allowed by policy although its names cannot be written in SurrealQL, or do not close
  where they end. Its user is never defined, and its deletion never finishes, since the removal query is
  refused or cannot be read, for ever (`Server.DefinitionEffect`, `Server.RemovalEffect`,
  `Deletion.AnsweredPassFinishesIff`; an allowed credential: `Deletion.AllowedDeletionNeverFinishes`).
- Redaction of a password that is part of the word "redacted" leaves it in the marker
  (`Redaction.MarkerSurvives`). No generated password is that short.

## Model

| member | source | states |
|---|---|---|
| Cleanup.CleanupSafety | internal/controller/surrealdbcredential_controller.go:69-305 | in every run with faults, crashes and fair edits, the managed user (at the place its texts are read) and any Secret that names the credential as owner exist only while its finalizer is stored; once it is gone, neither remains |
| Cleanup.RemovalTakesManaged | internal/controller/surrealdbcredential_controller.go:268-271 | a removal that succeeds has taken the managed user, and it succeeds exactly when the target is nameable |
| Cleanup.StepKeeps | internal/controller/surrealdbcredential_controller.go:69-305 | each single step keeps the stores safe and what the pass in progress knows about them true |
| Cleanup.DropFinalizerKeeps | internal/controller/surrealdbcredential_controller.go:295-305 | taking the finalizer away keeps the stores safe, whatever version the write meets: by then neither user nor claimed Secret is left |
| Cleanup.SecretDeleteKeeps | internal/controller/surrealdbcredential_controller.go:272-278 | after the owned Secret is deleted with success, nothing that names this credential as owner is left at the target name, and the user is still gone |
| Cleanup.AddFinalizerKeeps | internal/controller/surrealdbcredential_controller.go:80-83 | writing the finalizer, lost, unacknowledged or stale, keeps the stores safe and ends the pass |
| Deletion.DeletionOnlyShrinks | internal/controller/surrealdbcredential_controller.go:242-279 | over every run of passes on a deleting credential without outside writers, with any faults, what remains never grows and goes in the order user, Secret, finalizer |
| Deletion.AnsweredPassFinishesIff | internal/controller/surrealdbcredential_controller.go:242-305 | from any intermediate state that resolves, one pass with every call answered leaves nothing exactly when the target's names can be written and each closes where it ends, and otherwise leaves everything |
| Deletion.AllowedDeletionNeverFinishes | internal/controller/surrealdbcredential_controller.go:268-271 | a concrete credential, allowed by its policy for a namespace that ends in a backslash, keeps its finalizer through every pass with every call answered |
| Deletion.StuckForever | internal/controller/surrealdbcredential_controller.go:268-271 | with a target that is not nameable, no run of any length without outside writers removes user, Secret or finalizer |
| Server.RemovalEffect | internal/surreal/queries.go:42-56 | the removal of a generated user takes the login at the place its names are read, or is refused and changes nothing, exactly by whether the names are nameable |
| Server.DefinitionEffect | internal/surreal/queries.go:19-39 | a definition, whatever the password, makes one login where its names are read, or is refused and changes nothing, exactly by whether it was built and its names are nameable |
| Ownership.PassSparesOthers | internal/controller/surrealdbcredential_controller.go:104-112 | after every run with arbitrary edits between calls, the next call changes or removes only Secrets its credential owns by UID, and what it writes is that credential's own |
| Ownership.RunIsCareful | internal/controller/surrealdbcredential_controller.go:340-358 | in every run, a planned Secret update still names a version whose content is the one whose owner was checked |
| Ownership.WriteSparesOthers | internal/controller/surrealdbcredential_controller.go:340-358 | the write creates an absent name or replaces the exact version that was checked |
| Frames.PassSparesCredentials | internal/controller/surrealdbcredential_controller.go:69-305 | after every run with edits at any moment, the next call keeps request, annotations and foreign finalizers of every credential, and all policies and providers; a credential goes only if it was being deleted and held no finalizer but the operator's |
| Frames.FinalizerWrites | internal/controller/surrealdbcredential_controller.go:80-83 | in every run, a finalizer write that takes effect adds or takes away just the operator's own, and takes the credential along exactly when it was being deleted and held no other |
| Openings.ForcedIff | internal/controller/surrealdbcredential_controller.go:242-256 | a deletion pass leaves the remote user alone exactly when the annotation says true, by just that word |
| Openings.ForcedPassReleases | internal/controller/surrealdbcredential_controller.go:248-256 | a forced pass takes the operator's finalizer away even when deleting the Secret fails, deletes an owned Secret, and touches no remote user and no other finalizer |
| Openings.NewIsMarked | internal/controller/surrealdbcredential_controller.go:80-83 | a live credential without the finalizer gets it, and nothing else in the stores changes |
| Openings.ReleasedIsLeftAlone | internal/controller/surrealdbcredential_controller.go:245-247 | a credential being deleted without the finalizer is left alone |
| Convergence.ReadyMeansDelivered | internal/controller/surrealdbcredential_controller.go:114-157 | whatever was left before, whenever the final write of a pass takes effect, changed or not, Ready is stored and the Secret of the stored credential keeps the password of the login just defined; with backslash-free names and a printable password it leads to that login |
| Convergence.OnlyFinalWritesStoreReady | internal/controller/surrealdbcredential_controller.go:108-157 | no other call ever stores a status that says Ready |
| Convergence.DefinedIsDeliveredIff | internal/controller/surrealdbcredential_controller.go:136-147 | the login defined is the one the Secret leads to, with its password, exactly when no printed name holds a backslash and all of the password prints |
| Convergence.SecretWriteDelivers | internal/controller/surrealdbcredential_controller.go:340-358 | the written Secret is the credential's own and gives the planned password and the requested connection data, under both sets of keys and with the level; all of it is the one wanted, and no other Secret changes |
| Convergence.DesiredConnects | internal/secrets/target_secret.go:58-70 | the built Secret is owned by the credential and names exactly the requested server, scope, level, name and password, under both sets of keys |
| FixedPoint.AnsweredPassCompletes | internal/controller/surrealdbcredential_controller.go:69-157 | from every mix of remote user and absent or owned Secret, one pass with every call answered and a nameable target ends with Ready stored and the Secret keeping the password of the login defined |
| FixedPoint.AgainChangesNothingIff | internal/controller/surrealdbcredential_controller.go:97-157 | a second completed pass before the stored next rotation leaves all stores as they are, versions included, exactly when the first kept its password, had no period, or did not carry into another second |
| FixedPoint.SecondPassChangesNothingIff | internal/controller/surrealdbcredential_controller.go:97-157 | two passes of the machine: the second one resolves and completes, and leaves the stores as they are exactly under that condition; the target Secret is none of the provider's |
| FixedPoint.LaterCanLiveIff | internal/controller/surrealdbcredential_controller.go:181-240 | after a completed pass the next one resolves exactly when the provider's Secrets are still in order, which they are unless the target Secret is one of them |
| FixedPoint.WholePeriodsChangeNothing | internal/rotation/decision.go:28-81 | with no period or one of whole seconds the second pass always leaves the stores as they are |
| FixedPoint.OutcomeDelivers | internal/controller/surrealdbcredential_controller.go:136-157 | the three writes of a pass, taken together, leave Ready stored and the Secret keeping the password of the login defined |
| Schedules.StoredScheduleIsCompletions | internal/controller/surrealdbcredential_controller.go:114-157 | in every run, with edits, faults, crashes and other credentials, the stored rotation fields are the first ones after exactly the passes that completed |
| Schedules.StepFollows | internal/controller/surrealdbcredential_controller.go:151-157 | every other step keeps every stored schedule, so a pass that fails before its final write leaves the trigger pending |
| Schedules.TriggersOfRunsCounted | internal/controller/surrealdbcredential_controller.go:116-157 | in every run whose completed passes find a password, manual rotations equal the value changes of the annotation, and the last non-empty value is the one recorded |
| Grounds.ResolvedIsGrounded | internal/controller/surrealdbcredential_controller.go:181-240 | in every run, a target that a pass has resolved rests on what its own reads found: the policy under the credential's reference grants the request, the provider stood under the policy's reference, all root and TLS fields were there and parsed, and the username is the one of this credential and target |
| Grounds.NothingWithoutGrounds | internal/controller/surrealdbcredential_controller.go:126-141 | in every run, no definition is asked and no login changes without those grounds |
| Grounds.TlsDecides | internal/controller/surrealdbcredential_controller.go:219-224 | the TLS read lets a pass go on exactly when there is nothing to read, or it is answered and every field is there and parses; otherwise Ready is False with ProviderSecretInvalid |
| Grounds.RootDecides | internal/controller/surrealdbcredential_controller.go:307-327 | the root read lets a pass go on exactly when it is answered and both keys are there |
| Grounds.PolicyDecides | internal/controller/surrealdbcredential_controller.go:181-199 | the policy read lets a pass go on exactly when it is answered and the policy there grants the request; a deletion without one ends |
| Grounds.ProviderDecides | internal/controller/surrealdbcredential_controller.go:201-210 | the provider read lets a pass go on, with what is stored, exactly when it is answered and one is there |
| Grounds.SharedNameIsSharedLogin | internal/controller/surrealdbcredential_controller.go:226-226 | in any runs, two passes about to define users under one name work on the same credential for the same provider, namespace, database and level, or the kept digits of two different texts collide |
| Reports.TroublesAreTold | internal/controller/surrealdbcredential_controller.go:126-157 | a pass turns to a refusal exactly when one of eleven troubles is there, and what it then writes tells that trouble by its conditions at the object's generation, and nothing else |
| Reports.PlanTells | internal/controller/surrealdbcredential_controller.go:104-124 | a pass that goes on from its target Secret has checked the owner, decided on what it saw, and carries the stored password when it keeps it and the drawn one otherwise |
| Reports.UnansweredReadEnds | internal/controller/surrealdbcredential_controller.go:69-76 | a read without an answer ends the pass and changes nothing, unless it is of TLS material |
| Reports.RefusedProviderIsWrittenAgain | internal/controller/surrealdbcredential_controller.go:94-96 | a live refusal of TLS material is written twice, the second time as it is stored, which changes nothing |
| Statuses.FinalStatusTells | internal/controller/surrealdbcredential_controller.go:97-157 | in every run, a final status write that takes effect leaves, over the status of the object, the target's names, the generation, four conditions that are True, and the schedule of the completed pass; nothing else changes |
| Statuses.RefusalTells | internal/controller/surrealdbcredential_controller.go:108-141 | in every run, any other status write that takes effect stores one such refusal over the status of the object, or what is there already |
| Authority.EveryDefinitionIsGranted | internal/controller/surrealdbcredential_controller.go:181-240 | in every run, each definition asked of SurrealDB names a target and roles granted by the policy read in that same pass, on the provider that policy names |
| Logins.LoginsAreGrantedIff | internal/controller/surrealdbcredential_controller.go:136-140 | after every run, a login that the next call makes or changes is granted by the policy read in that pass exactly when the names sent are read within it; it names each role once |
| Logins.LoginsStayGranted | internal/controller/surrealdbcredential_controller.go:136-140 | a pass whose target holds no backslash makes and changes only the login it asked for, as the policy of that pass grants |
| Logins.GrantedLoginLandsElsewhere | internal/surreal/identifiers.go:36-41 | a policy for a namespace that ends in two backslashes grants a request whose login lands in the namespace that ends in one |
| Logins.LoginsChangeByDefinition | internal/controller/surrealdbcredential_controller.go:136-140 | only a definition that the server takes makes or changes a login: the one where its names are read, with what the password is read as and the distinct requested roles |
| Logins.LoginsGoByRemoval | internal/controller/surrealdbcredential_controller.go:268-271 | only a removal takes a login away: the one where its names are read |
| Logins.DefinitionTextStaysGranted | internal/surreal/queries.go:19-39 | for targets without a backslash, the text of an allowed definition names the granted scope, level and roles |
| Authority.AcceptedScopeIsNulFree | internal/surreal/identifiers.go:31-35 | an allowed request whose query is accepted has a NUL-free namespace and database |
| Authority.AcceptedIdentityIsUnique | internal/policy/username.go:42-62 | whoever feeds the hash the bytes of such a request has its namespace and name, its provider, SurrealDB namespace, database and level |
| Reconciler.CredentialReconciler.Reconcile | internal/controller/surrealdbcredential_controller.go:69-169 | one pass changes the stores exactly as the machine does when fed the same script call by call, and ends when the machine does |
| Reconciler.CredentialReconciler.ReconcileLive | internal/controller/surrealdbcredential_controller.go:89-102 | a live pass writes a refusal or goes on with the accepted status, as the machine does |
| Reconciler.CredentialReconciler.Manage | internal/controller/surrealdbcredential_controller.go:104-124 | ownership check, rotation decision and password choice follow the machine |
| Reconciler.CredentialReconciler.Issue | internal/controller/surrealdbcredential_controller.go:126-141 | connection and definition follow the machine, failures included |
| Reconciler.CredentialReconciler.Deliver | internal/controller/surrealdbcredential_controller.go:143-159 | Secret write and final status follow the machine |
| Reconciler.CredentialReconciler.Resolve | internal/controller/surrealdbcredential_controller.go:181-240 | an error ends the pass, a refusal leaves the status to write, success names the machine's own target |
| Reconciler.CredentialReconciler.Authorize | internal/controller/surrealdbcredential_controller.go:181-199 | policy read and evaluation follow the machine |
| Reconciler.CredentialReconciler.Locate | internal/controller/surrealdbcredential_controller.go:201-218 | provider and root credential reads follow the machine |
| Reconciler.CredentialReconciler.Secure | internal/controller/surrealdbcredential_controller.go:219-224 | a TLS refusal is written at once and refreshed in memory, as in the machine; a target is found only with every TLS field in order |
| Reconciler.CredentialReconciler.LoadRootCredentials | internal/controller/surrealdbcredential_controller.go:307-327 | succeeds exactly when the machine goes on to the TLS material, and then both keys are there |
| Reconciler.CredentialReconciler.ReconcileDelete | internal/controller/surrealdbcredential_controller.go:242-279 | every path of a deletion pass brings the machine to its end |
| Reconciler.CredentialReconciler.ForceDelete | internal/controller/surrealdbcredential_controller.go:248-256 | force cleanup goes on to the finalizer even when the Secret stays |
| Reconciler.CredentialReconciler.Dismantle | internal/controller/surrealdbcredential_controller.go:262-278 | user, Secret, finalizer in the machine's order, each failure recorded |
| Reconciler.CredentialReconciler.RecordDeleteFailure | internal/controller/surrealdbcredential_controller.go:281-293 | writes the machine's failure status, marking the Secret when asked |
| Reconciler.CredentialReconciler.RemoveCredentialFinalizer | internal/controller/surrealdbcredential_controller.go:295-305 | reads again and writes the object without the finalizer if it is still there |
| Reconciler.CredentialReconciler.ReconcileTargetSecret | internal/controller/surrealdbcredential_controller.go:340-358 | creates when nothing was read, else replaces the contents of the version read |
| Reconciler.CredentialReconciler.DeleteOwnedTargetSecret | internal/controller/surrealdbcredential_controller.go:360-372 | deletes exactly when the ownership scan says so |
| Reconciler.StoresAreTheMachines | internal/controller/surrealdbcredential_controller.go:69-169 | a valid reconciler's stores are those of the run of its events |
| Rotation.NextIsEarliestProposal | internal/rotation/decision.go:62-81 | with a period throughout, the stored next rotation is the earliest one proposed since the rotation, for every period |
| Rotation.NextIsLastPlusSmallestPeriod | internal/rotation/decision.go:48-81 | with whole-second periods that is the last rotation plus the smallest period since, so lengthening never delays |
| Rotation.ReusedStretch | internal/rotation/decision.go:48-59 | passes that keep the password and see a period keep the last rotation and only bring the next one forward, to the earliest that one of them proposes |
| Rotation.NextIffPeriod | internal/rotation/decision.go:28-60 | a completed pass leaves a next rotation exactly when it saw a period |
| Rotation.NextSincePeriodSet | internal/rotation/decision.go:48-81 | from any schedule, once a pass saw no period, the next rotation is the earliest proposed by the kept passes that saw one since; nothing stored before counts |
| Rotation.NextIsLastPlusSmallestSinceSet | internal/rotation/decision.go:48-81 | with whole-second periods that is the recorded rotation plus the smallest period since the period was last unset |
| Rotation.UnsetForgetsNext | internal/rotation/decision.go:48-60 | a concrete schedule whose next rotation is forgotten when the period is taken away |
| Rotation.ReasonMeans | internal/rotation/decision.go:34-60 | each reason holds of exactly the inputs it names, and goes with its action |
| Rotation.ManualTriggersCountedExactly | internal/rotation/decision.go:29-46 | the number of manual rotations equals the number of value changes among non-empty annotation values |
| Rotation.TriggerStep | internal/rotation/decision.go:41-60 | a pass rotates manually exactly on a new non-empty value, and records it; an absent value keeps the recorded one |
| Rotation.GenerationAbsorbsTrigger | internal/rotation/decision.go:34-46 | a pass that finds no password generates one and takes the pending request with it |
| Ages.CompletedPassBoundsAge | internal/controller/surrealdbcredential_controller.go:114-157 | in every run with faults, crashes, edits and a clock that does not go back, a completed pass with a positive period that found a recorded rotation or makes a new password leaves a password younger than the period, wherever in the run it was drawn |
| Ages.RunAges | internal/controller/surrealdbcredential_controller.go:114-157 | in every such run the recorded rotation is never later than the draw behind the Secret's password |
| StoppedPass.AgeIsBoundedIff | internal/controller/surrealdbcredential_controller.go:114-157 | for each stored schedule and each sighting with a positive period: in all runs with a clock that does not go back, every completed pass that meets them leaves a password younger than the period, if and only if a rotation is recorded or the pass makes a new password |
| Rotation.YoungForSureIff | internal/rotation/decision.go:48-81 | one pass bounds the age of a password drawn at any possible time exactly when a rotation is recorded or it makes a new one |
| StoppedPass.StoppedPassOutlivesPeriod | internal/controller/surrealdbcredential_controller.go:143-159 | for every period and every longer delay: a first pass stops after its Secret write, a second one completes, and Ready is stored over the first one's password |
| StoppedPass.TenHoursOld | internal/controller/surrealdbcredential_controller.go:143-159 | a concrete run with a period of one hour and a password of ten |
| Rotation.PasswordAgeBound | internal/rotation/decision.go:34-81 | over any sequence of completed passes, a completed pass with a positive period leaves a password drawn by one of them younger than that period |
| Rotation.KeepsPasswordIff | internal/rotation/decision.go:34-60 | the password is kept exactly when there is one, no new request, and nothing due |
| Rotation.PlannedNextLiesAhead | internal/rotation/decision.go:48-81 | in memory the planned next rotation is after now and no later than the last rotation plus the period |
| Rotation.StoredNextAheadIff | internal/rotation/decision.go:48-81 | exactly when the stored, truncated next rotation is still after now |
| Rotation.WholePeriodsKeepNextAhead | internal/rotation/decision.go:62-81 | whole-second periods always meet that condition |
| Rotation.FractionalPeriodFallsBehind | internal/rotation/decision.go:62-81 | a period of 1.5 s does not |
| Rotation.FixedPointIff | internal/rotation/decision.go:28-81 | exactly when a quiet follow-up keeps password and schedule |
| Rotation.FractionalPeriodUnsettled | internal/rotation/decision.go:28-81 | a period of 1.5 s moves the stored next rotation on the second pass |
| Misreading.DefineUserRoundTripIff | internal/surreal/queries.go:19-39 | an accepted definition is read as exactly the requested scope, level, username, password and distinct roles if and only if no printed name holds a backslash and all of the password prints |
| QueryMeaning.DefinitionIsRead | internal/surreal/queries.go:19-39 | with nameable names a definition is two statements, carrying what names and password are read as |
| Misreading.DefinitionIsReadIff | internal/surreal/queries.go:19-39 | the definition of a generated user can be read at all exactly when its target is nameable, whatever the password holds |
| Misreading.RemoveUserRoundTripIff | internal/surreal/queries.go:42-56 | the same of the removal, for its names |
| Misreading.RemovalIsReadIff | internal/surreal/queries.go:42-56 | the removal of a generated user can be read at all exactly when its target is nameable |
| SurrealQL.NameReadsBack | internal/surreal/identifiers.go:27-42 | a backslash-free accepted name, rendered and followed by other text, scans to itself and the untouched rest |
| SurrealQL.NameReadsBackIff | internal/surreal/identifiers.go:36-41 | before any text that does not continue it, a rendered name is read as itself exactly when it is backslash-free |
| SurrealQL.ClosesItselfIff | internal/surreal/identifiers.go:36-41 | a quoted name is closed by its own closing backtick, in every context, exactly when neither a backtick of its own nor its end follows an odd number of backslashes |
| SurrealQL.TrailingBackslashes | internal/surreal/identifiers.go:36-41 | one trailing backslash swallows the closing backtick; two close and are read as one |
| SurrealQL.LexText | internal/surreal/queries.go:37-37 | every quoted password closes at its own quote and is read with each escape losing its backslash |
| SurrealQL.ReadBackIff | internal/surreal/queries.go:37-37 | a quoted password is read as itself exactly when all of it prints |
| Identifiers.EscapeIdentInjective | internal/surreal/identifiers.go:27-42 | two accepted names never render alike, backslashes included |
| Identifiers.AcceptedHasNoControl | internal/surreal/identifiers.go:31-35 | an accepted name holds no control character |
| Identifiers.AcceptedIff | internal/surreal/identifiers.go:27-42 | a name is accepted exactly when it is non-empty and free of control characters |
| Queries.QueriesAcceptedIff | internal/surreal/queries.go:19-78 | a definition is built exactly when scope and username can be written and the roles are some and all supported; a removal exactly when the names can |
| QueryMeaning.KeywordsAreReserved | internal/surreal/identifiers.go:12-20 | every word the statements are made of, but OVERWRITE, is quoted as a name, in whatever case |
| Queries.Distinct | internal/surreal/queries.go:84-97 | the same roles, each once |
| Queries.DistinctKeepsFirstOrder | internal/surreal/queries.go:84-97 | distinct roles come in the order of their first occurrence |
| Queries.RenderRoles | internal/surreal/queries.go:80-99 | the loop renders exactly the distinct roles, or reports the first unsupported one |
| Redaction.RedactionCompleteIff | internal/surreal/client.go:91-99 | for bracket-free passwords, every redacted message is free of the password exactly when it is no part of the word redacted |
| Redaction.QuotedFormNeverSurvives | internal/surreal/client.go:96-97 | for bracket-free passwords, no redacted message holds the quoted form the query carries, escapes included |
| Redaction.QuotedMentionBecomesMarker | internal/surreal/client.go:96-97 | a password mentioned once, in quotes, becomes one marker, quotes included |
| Redaction.GeneratedPasswordsNeverLeak | internal/surreal/client.go:91-99 | no generated password occurs in any redacted message, not even across kept text and marker |
| Redaction.CleanMessagesKept | internal/surreal/client.go:95-98 | a message that holds the password in neither form is passed on unchanged, and so is any when there is no password |
| Redaction.MarkerSurvives | internal/surreal/client.go:96-97 | a password that is part of the word redacted comes back in the marker |
| Passwords.GeneratePassword | internal/secrets/password.go:15-29 | each character is the alphabet's at its draw; fails exactly on a non-positive length or the first failed draw |
| Passwords.AlphabetPrints | internal/secrets/password.go:9-12 | passwords over the alphabet print as themselves inside quotes |
| Policy.AllowedIffGranted | internal/policy/evaluate.go:25-63 | a request is allowed exactly when the policy grants its level, database and role set |
| Policy.VerdictMeans | internal/policy/evaluate.go:25-63 | the verdict is true of policy and request, and no objection that comes before it is |
| Policy.EvaluateRequest | internal/policy/evaluate.go:25-63 | the branches with their loops give the specified verdict and target |
| Policy.FindMissingRoles | internal/policy/evaluate.go:78-90 | the two loops yield the requested roles that are not allowed, in order |
| Policy.MissingRoles | internal/policy/evaluate.go:78-90 | exactly the requested roles that are not allowed |
| Policy.ContainsString | internal/policy/evaluate.go:69-76 | membership |
| Username.NormalizePart | internal/policy/username.go:64-83 | the flag-driven loop equals joining the maximal runs of [a-z0-9] of the lower-cased text with single underscores |
| Username.EmittedIsJoinedWords | internal/policy/username.go:64-79 | what the loop emits is the joined runs plus at most one underscore at each end |
| Username.NormalizeIdempotent | internal/policy/username.go:64-83 | normalizing twice is normalizing once when lower-casing fixes [a-z0-9_] |
| Username.UsernameShape | internal/policy/username.go:30-53 | for every input: at most 63 characters, led by k8s, [a-z0-9] words joined by single underscores |
| Username.UsernameEndsInHash | internal/policy/username.go:42-52 | the username ends in the kept hash characters however much of the readable part is cut |
| Username.UsernameIsReadable | internal/policy/username.go:30-53 | before the hash the username is the prefix with the normalized namespace and name, whole up to 54 characters, else cut there |
| Username.SameBytesSameIdentity | internal/policy/username.go:42-62 | whoever feeds the hash the same bytes as a NUL-free identity has the same six fields |
| Username.SharedUsernameSharesHash | internal/policy/username.go:42-52 | two credentials or targets share a username only if their digests share those characters |
| Username.UsernameIsItsOwnIdentifier | internal/surreal/identifiers.go:36-41 | a generated username is its own SurrealQL spelling, never quoted, never rejected |
| Username.KeepNonEmpty | internal/policy/username.go:85-93 | the loop keeps exactly the non-empty values, in order |
| Username.FeedHash | internal/policy/username.go:55-62 | the loop feeds each value closed by a zero |
| Username.FramingInjective | internal/policy/username.go:55-62 | NUL-free fields and any other fields never feed the hash the same bytes |
| Username.UniquelyFramedIff | internal/policy/username.go:55-62 | a list of fields is told apart from all others exactly when no field holds a NUL |
| TargetSecret.OwnedByCredential | internal/secrets/target_secret.go:75-82 | the scan finds an owner reference with this version, kind, name and UID exactly when there is one |
| TargetSecret.OwnedMeans | internal/secrets/target_secret.go:75-82 | owned means an owner reference with this API version, kind, name and UID, whatever else it says |
| TargetSecret.BuiltSecretReadsBack | internal/secrets/target_secret.go:58-105 | the built Secret belongs to its credential's UID alone as a blocking controller reference, is labelled with its name, and gives the password back under both keys |
| Tls.LoadTlsConfig | internal/surreal/tls.go:16-75 | succeeds exactly when nothing is wrong with the references, and then carries the material they name |
| Providers.VerdictMeans | internal/controller/surrealdbprovider_controller.go:74-105 | nothing is reported exactly when the endpoint is good, every needed field is there and the TLS material parses; otherwise what is reported is wrong and nothing before it in the order of validation is |
| Providers.ValidateProvider | internal/controller/surrealdbprovider_controller.go:74-105 | the branches of the source report exactly that |
| Providers.ReferencesAreNeeded | internal/controller/surrealdbprovider_controller.go:108-120 | the listed references are exactly the Secrets that hold a needed field |
| Providers.ReferencedSecrets | internal/controller/surrealdbprovider_controller.go:108-120 | the source's list has exactly those members |
| Providers.ValidateReadsOnlyReferences | internal/controller/surrealdbprovider_controller.go:74-120 | stores that agree on the referenced Secrets give the same verdict |
| Providers.JudgeAgreesWithValidate | internal/controller/surrealdbprovider_controller.go:74-105 | a verdict from reads made one by one, all still current, is that of full validation |
| Providers.RequestsForSecret | internal/controller/surrealdbprovider_controller.go:124-141 | the nested loops give one request per listed provider that references the Secret, in list order |
| Providers.ListedRequestsAreTheConcerned | internal/controller/surrealdbprovider_controller.go:130-140 | a provider is requested exactly when it references the Secret |
| Providers.RequestsInListOrder | internal/controller/surrealdbprovider_controller.go:130-140 | one request per concerned provider, in list order |
| Providers.QueueRuleIsTheMapping | internal/controller/surrealdbprovider_controller.go:124-141 | listing every provider requests exactly those that a change of the Secret queues |
| Providers.IncrementalEqualsFull | internal/controller/surrealdbprovider_controller.go:49-141 | in every run of Secret and provider changes, deliveries, restarts and interleaved passes, a provider nothing waits for has the stored verdict of full validation on the current objects |
| Providers.StepSound | internal/controller/surrealdbprovider_controller.go:49-150 | every step keeps each provider queued, noticed, being worked on, or up to date |
| Providers.ProviderReconciler.Reconcile | internal/controller/surrealdbprovider_controller.go:49-72 | a pass is one begin, its reads and one end in a run of the controller, and undisturbed leaves the verdict of full validation |
| Providers.ProviderReconciler.ReadReferences | internal/controller/surrealdbprovider_controller.go:74-105 | reads references until the verdict is settled, never more than there are |

## Left out

- The manager's cached client: reads see the stores as they are; a stale read is modelled only through the version check of the write that follows it.
- The requeue delay of a completed pass and the choice between returned errors and requeues: passes begin at any time in any order.
- Interleaving inside one step: `LoadTLSConfig`'s two reads, and the read and delete of the owned Secret, are one step each; the source's delete carries no version precondition.
- A credential or policy that changes its target mid-life: the operator does not track the old target, so `Cleanup` and `Deletion` fix the resolved target.
- Cleanup.CleanupSafety: outside writers may do anything that keeps the target pinned, except edit this finalizer, forge an owner reference to this credential, define the managed user themselves, or ask for force cleanup; passes over other credentials appear as such edits.
- Force cleanup beyond its branch of the machine: it leaves the remote user behind on purpose.
- Convergence.ReadyMeansDelivered: edits stay away from the login and the Secret that the pass in progress has just written; nothing could be promised otherwise.
- Ages.CompletedPassBoundsAge: after somebody else writes or drops the Secret, the draw behind its password is unknown until a pass draws again; the credential keeps naming the same Secret.
- Redaction.RedactionCompleteIff: passwords that hold square brackets are not covered; the generator's alphabet has none.
- Providers.IncrementalEqualsFull: reads succeed or report not found and lists succeed; after a read that fails otherwise the source stores a verdict without trying again.
- `AdminClient`'s connection and sign-in, other server errors than unreadable text, and the parsing of endpoint URLs: calls that may fail, and an abstract endpoint check.
- The default client factory refuses every provider with a TLS section, whatever the material; here a connection is a call that may fail for any provider.
- SHA-256, the random source, PEM, X.509 and Unicode tables: parameters with the stated facts only.
- SurrealQL beyond the statements of the two queries, comments among them. The lexer takes a backslash inside backticks or quotes to make the next character literal, as the operator's own escaping does; of Go's escapes for unprintable characters it knows none.
- SurrealQL's own list of reserved words: the parser refuses as a bare name the words of the two queries in any case, but takes OVERWRITE, which the operator's table does not hold, for a name.
- Bytes and UTF-8: texts are sequences of characters, lengths count characters; generated names are ASCII.
- Condition messages and transition times; a condition is its status, reason and generation.
- Immutability of a Secret's type, labels and annotations of other tools on the Secret.
- The object in memory is a value that methods take and hand back; in the source they change it through the argument, and none keeps it beyond its return.
- The tenant policy controller (one lookup and one status write), API type registration, deep copies, `cmd/main.go`, charts and manifests: wiring and copying without behaviour of their own.
