# Apchi, modelled and proved

Apchi pushes a staged configuration, the Candidate, to a running Trino cluster through a staged
pipeline. A failure after the Cluster was touched gets one Auto Rollback to the latest Snapshot; an
Apchi that restarts resolves what it left in flight; a rollback that fails is an incident, with
Maintenance Mode engaged until an Admin releases it. What was applied and verified becomes the next
numbered Snapshot. This project models that behaviour and proves what each part promises.

The parts, each building on the ones before it:

- **Text** (`PropertiesFile`, `CertificateTokens`, `RegexEscape`, `PatternMatching`, `Json`, `Cursor`): the
  formats, read and written character by character the way the code does it, with exact conditions for what
  survives a round trip, and what an escaped name matches.
- **Catalogs** (`Catalogs`, `CertificateWiring`, `CatalogAdoption`, `CatalogPlans`, `CatalogDdl`,
  `CatalogRecovery`, `CatalogRestarts`, `CatalogsSection`): the one Section that is not atomic.
  `CatalogsSection.Cluster` is the live cluster with its durable Secret; its methods fail anywhere, with or
  without effect, and the coordinator may restart between any two statements; while the Cluster is calm, which
  is a field no method writes, they answer exactly what was accepted. `CatalogRecovery` proves that one rollback, planned
  from durable records alone, undoes an Apply from every point where it can stop; `CatalogRestarts` that it
  still does when restarts are interleaved.
- **Pipeline** (`Pipeline`, `PipelineSafety`, `PipelineTheorems`, `PipelineRecords`, `PipelineCrashes`,
  `ApplyRunner`): a step relation with a step for each durable write and each action on the Cluster, with
  failures, process crashes anywhere, coordinator restarts and requests in between; an inductive invariant; the
  whole-run theorems that follow, what the records say among them; and what the crashes leave that the code does
  not undo. `ApplyRunner.Apchi` is the code in its own imperative form: each method is proved to take only such
  steps, and to succeed when nothing disturbs it.
- **Access control and certificate mapping** (`Permissions`, `PermissionsParser`, `PermissionsRoundTrip`,
  `AccessRules`, `PermissionsEvaluation`, `PermissionsBlocks`, `CertificateMapping`): generators, parsers, the
  fixpoint that adoption checks, and what every block of the generated files means under first-match evaluation.
- **Reading the collections** (`Pages`, `SnapshotStore`, `AuditStore`): keyset pages over collections that
  change while they are read.
- **Delivery** (`KubernetesAdapter`, `Delivery`, `Mounting`, `DeliveryTheorems`, `RawFiles`): Secrets,
  volumes and single-file mounts under the API server's own rule.
- **Prediction** (`Selectors`): which resource group a query lands in, answered only when certain.

`Outcomes`, `Ordering` and `Slices` hold options and results, sorting by code point, and facts about
pieces of sequences.

## Findings

Where a promise holds only under a condition, the condition is proved to be exact.

- A rollback sees a changed catalog by comparing renderings. Two configurations that write a catalog
  alike and serve it differently, which a line feed in a property value can do, leave a replacement that
  no rollback undoes (`CatalogRecovery.SomeCatalogsAreAmbiguous`,
  `CatalogRecovery.RollbackRestoresExactlyWhenUnambiguous`).
- A rollback writes the Snapshot's Secret before its statements, and a rollback is planned from the Secret.
  One that stops in between is finished by another exactly when everything that is not the Snapshot's was
  gone already (`CatalogRecovery.StoppedRollbackIsFinishedExactly`); a changed or added catalog that was still
  live stays (`CatalogRecovery.SomeRollbacksCannotBeRepeated`).
- A rollback reads what is live before it writes the Secret. A coordinator that restarts in between loads the
  new configuration behind its back: the rollback is accepted and has restored the Snapshot exactly when every
  catalog that was only to be added had been live already (`CatalogsSection.OvertakenRestoresExactly`,
  `CatalogsSection.SomeRollbacksAreOvertaken`).
- A retry after an Apply that stopped between the two halves of a replacement, or among the final drops,
  issues a DROP for a catalog that is already gone; the retry completes exactly when the Apply stopped anywhere
  else (`CatalogRecovery.RetryCompletesExactlyAtRest`). Every Apply that replaces or drops has such a stop
  (`CatalogRecovery.SomeStopsCannotBeRetried`).
- A failed rollback is to engage Maintenance Mode before the record leaves ROLLING_BACK. A process that dies
  after the rollback failed and before Maintenance Mode is engaged leaves a record that the next start fails
  and does not roll back: the edit gate opens, with the failed rollback owed and the Cluster as it was left
  (`PipelineCrashes.CrashBeforeEngagingOpensTheGate`, `PipelineCrashes.DyingAfterAFailedRollback`). Once it is
  engaged the gate stays closed (`PipelineCrashes.CrashAfterEngagingKeepsItClosed`).
- No process has to die for that. After a restart the interrupted record is FAILED before its rollback; if that
  rollback fails and recording or declaring it then raises (`app/pipeline/applies.py:543-549`), start-up goes on
  and serves (`app/main.py:136-144`), and the gate is open at once
  (`PipelineCrashes.AbortingBeforeEngagingOpensTheGate`, `PipelineCrashes.AbortingAfterAFailedRollback`). Either
  way out, and however late, the gate is open exactly when Maintenance Mode is not engaged
  (`PipelineCrashes.CutShortExactly`).
- A process that dies in ROLLING_BACK before its rollback, or in recovery between making a record FAILED and
  its rollback, leaves the Cluster where the Apply did, with the gate open; that is the latest Snapshot exactly
  when a rollback would have found nothing to undo (`PipelineCrashes.CrashBeforeRestoringIsNotUndone`). A
  recovery that raises there does the same without a crash
  (`PipelineCrashes.AbortingBeforeRestoringIsNotUndone`).
- A crash in COMMITTING before the Snapshot is written, a write of it that fails, or a write of the record of
  COMMITTING that fails (`app/pipeline/applies.py:400-402`) is failed and not undone, with the edit gate open; the
  Cluster is on the latest Snapshot exactly when the two configurations are served and recorded alike
  (`PipelineCrashes.CrashWhileCommittingIsNotUndone`, `PipelineCrashes.FailedCommitIsNotUndone`,
  `PipelineCrashes.FailedEntryIsNotUndone`). Once the Snapshot is written the Cluster stays on the latest one
  (`PipelineCrashes.FailingAfterTheSnapshotStaysInSync`). Applying the same Candidate again completes exactly
  when it dropped no catalog (`CatalogRecovery.RepeatCompletesExactlyWithoutDrops`).
- An Apply that adopts a Cluster changes nothing on it, and has no Snapshot to go back to. A rollback without a
  Snapshot drops exactly what is live and recorded in the Secret
  (`CatalogsSection.RollbackWithoutSnapshot`), so one that fails is undone exactly when nothing was adopted;
  otherwise every adopted catalog is gone from the Cluster and from the Secret
  (`CatalogsSection.AdoptingIsUndoneExactlyWhenNothingWasAdopted`).
- The Admin's import (`app/api/admin.py:249-287`) is not behind the gate that freezes the Candidate. What is
  committed is what was validated all the same, but an import during an Apply is lost when the Candidate is
  re-derived; nothing else is (`PipelineTheorems.CommitsWhatWasValidated`,
  `PipelineTheorems.RederivesWhatWasValidated`).
- The access-control fixpoint fails for exactly the files from which Apchi's own reserved access was read
  as a grant. The pattern's final `$` matches before a trailing line feed, so a rule that repeats the
  reserved one with a line feed added is such a file (`PermissionsRoundTrip.FixpointExactly`,
  `PermissionsRoundTrip.TrailingLineFeedIsLost`).
- A certificate-mapping file with preserved patterns and no Operator's pattern is read back with the first
  preserved one as the Operator's (`CertificateMapping.ResourcesSurviveExactly`).
- Grants are written in key order and the first match decides, and `*` sorts before letters and digits. A
  grant on a whole catalog shadows one on a schema of it unless the schema's name begins with one of the few
  characters that sort before `*` (`PermissionsEvaluation.NarrowerGrantTakesEffectExactly`,
  `PermissionsEvaluation.FirstLetterDecides`): whoever may read a catalog and write one of its schemas may not
  write there (`PermissionsEvaluation.ReaderOfAllCannotWriteSome`).
- Raw-file delivery looks for mounts in every container and removes them from one: with a sidecar that
  mounts a file of the volume, a change is reported forever (`RawFiles.SettledExactly`,
  `RawFiles.SomeDeliveriesAreNeverSettled`).

## Model

| member | source | states |
|---|---|---|
| Ordering.LessExactly | app/sections/catalogs/generator.py:29-32 | the order of every `sorted` over text: one text before another that it begins, and otherwise by the first character that differs |
| PropertiesFile.ReadProperties | app/sections/catalogs/generator.py:70-96 | the loop over numbered lines computes the specified reading: connector, other properties, lost comment lines, or the first line that is not a property |
| PropertiesFile.RoundTripExactlyWhenClean | app/sections/catalogs/generator.py:29-32 | parsing a rendering gives the connector and properties back with nothing lost if and only if keys and values are ones a properties file can carry |
| PropertiesFile.RenderedExactly | app/sections/catalogs/generator.py:29-32 | the connector on the first line, then one line for each property in the order of their names |
| PropertiesFile.ParsesExactly | app/sections/catalogs/generator.py:70-96 | for any text: refused unless every line but blanks and comments has an equals sign and one names the connector; each name has what the last line that gives it says; exactly the comments are lost, by line number |
| PropertiesFile.LineBreaks | app/sections/catalogs/generator.py:79 | a line ends at the ten characters `splitlines` knows, once for a carriage return with its line feed, and nowhere else |
| PropertiesFile.BlankCharacters | app/sections/catalogs/generator.py:80-87 | exactly which characters `strip` removes |
| PropertiesFile.ParsedIsClean | app/sections/catalogs/generator.py:70-96 | whatever the parser returns is something a file can carry, so nothing else can survive a round trip |
| PropertiesFile.CleanRenderingIdentifies | app/sections/catalogs/generator.py:29-32 | two clean catalogs with one rendering are the same catalog |
| CertificateTokens.TokenAtText | app/sections/catalogs/certificates.py:24 | the token expression matches at a position exactly when the text of a well-formed token, maximal in its name, stands there |
| CertificateTokens.JoinedTokens | app/sections/catalogs/certificates.py:35-40 | scanning the space-joined values finds exactly the union of what scanning each value finds |
| CertificateTokens.ExpandIdempotent | app/sections/catalogs/certificates.py:43-50 | expansion leaves no token behind, and expanding again changes nothing |
| CertificateWiring.ExpansionExactly | app/sections/catalogs/certificates.py:43-50 | a well-formed token becomes the path of its file under `/etc/trino/certs`, and any other text stays |
| CertificateWiring.NameCharacters | app/sections/catalogs/certificates.py:24 | what the name of a token may be made of, and what it may begin with |
| CertificateWiring.TokenPathAppears | app/sections/catalogs/certificates.py:35-50 | the path of every token that is named is written in the expanded text |
| CertificateWiring.WiringExactly | app/sections/catalogs/certificates.py:53-68 | wiring appends `sslcert` with the certificate's file and `sslkey` with the key's to the connection URL of a postgresql Catalog, and refuses any other connector and a missing URL |
| CertificateWiring.StagedExactly | app/sections/catalogs/section.py:85-107 | which Catalogs may present a certificate: by a name that is one, for postgresql, with a URL to wire it into |
| CertificateWiring.WiredCertificateIsRead | app/sections/catalogs/certificates.py:53-68 | a reader of query parameters, defined apart from the writer, finds in the URL that Trino receives every parameter that was there, then `sslcert` as the certificate's file and `sslkey` as the key's, with or without a question mark before |
| CertificateWiring.RenderedPair | app/sections/client_certificates/generator.py:37-48 | those two files hold the staged certificate and the staged private key |
| CertificateWiring.ReferencedExactly | app/sections/catalogs/certificates.py:35-40 | a Catalog refers to a certificate if and only if one of its tokens names it or it presents it, and not by the empty string |
| CertificateWiring.InsertedPathIsServed | app/pipeline/references.py:21-39 | every path that the reference check answers for stands in one of the effective properties |
| Catalogs.EffectiveProperties | app/sections/catalogs/generator.py:15-26 | the effective properties have the staged keys; each value but a wired URL is the staged one expanded; no token reaches Trino |
| Catalogs.SecretRecords | app/sections/catalogs/generator.py:35-46 | the rendered Secret records, under each name's key, that catalog's rendering and nothing for any other name |
| Catalogs.SecretKeysExactly | app/sections/catalogs/generator.py:35-46 | the Secret has one key for each Catalog, its name with `.properties` behind it, holding the connector and the effective properties; and no other key |
| Catalogs.SecretSeedsConfiguration | app/sections/catalogs/generator.py:35-46 | a coordinator starting from a clean configuration's Secret serves exactly that configuration |
| Catalogs.SeedsLoaded | app/sections/catalogs/section.py:294-306 | what a Secret seeds is what a coordinator loads from it, and nothing else |
| CatalogAdoption.StoreNameExactly | app/sections/catalogs/generator.py:59-67 | a path is a catalog's if and only if it is that non-empty name in the store directory with `.properties` behind it |
| CatalogAdoption.StoreDirectory | app/sections/catalogs/generator.py:62-67 | the slashes a store directory is given with at its end make no difference |
| CatalogAdoption.ParseFiles | app/sections/catalogs/section.py:247-272 | the loop over sorted paths fills the resources and what is unaccounted for as specified, or stops at the first file it cannot read |
| CatalogAdoption.AdoptedMembers | app/sections/catalogs/section.py:247-272 | for any files: adoption stops exactly at a catalog's file that cannot be read, and otherwise takes each catalog from its own file and reports exactly what it does not take |
| CatalogAdoption.AdoptedExactly | app/sections/catalogs/section.py:247-272 | nothing is left unaccounted for if and only if every file is a catalog's and loses nothing by being read; each name then has its own file's content |
| CatalogAdoption.AdoptionReadsBack | app/sections/catalogs/section.py:247-272 | adopting the store directory of a clean configuration gives each catalog as Trino runs it, with nothing left over |
| Catalogs.RenderCertificates | app/sections/client_certificates/generator.py:37-48 | the loop writes the pair of files of every staged certificate, each with its own content, and no others |
| Catalogs.Report | app/pipeline/references.py:28-38 | the inner loop adds one failure for each certificate a Catalog names that is not staged, in order |
| Catalogs.MissingCertificates | app/pipeline/references.py:21-39 | the nested loops compute the specified list of missing references |
| Catalogs.MissingMembers | app/pipeline/references.py:21-39 | a failure is reported for a Catalog and a certificate if and only if the Catalog names it and nobody staged it |
| Catalogs.NothingMissingMeansFilesExist | app/pipeline/references.py:21-39 | nothing is missing if and only if every path that expansion or wiring inserts into any Catalog is a file the certificate generator writes |
| Catalogs.RemovalBreaksExactlyTheUsers | app/pipeline/references.py:42-56 | taking a certificate away makes exactly the references missing that the Catalogs reported as using it have to it |
| CatalogPlans.MakePlan | app/sections/catalogs/apply.py:49-57 | the loop puts each desired name where it belongs and computes the specified plan |
| CatalogPlans.PlanMembers | app/sections/catalogs/apply.py:49-57 | create: desired and not current; replace: in both and stored differently; drop: current and not desired |
| CatalogPlans.RollbackMembers | app/sections/catalogs/apply.py:60-98 | which names a rollback creates, replaces and drops, from the Snapshot, the live names and the two Secrets alone |
| CatalogPlans.SettledMembers | app/sections/catalogs/apply.py:101-138 | settling removes precisely the creates that are live and recorded identically, and keeps replacements and drops |
| CatalogPlans.CheckPasses | app/sections/catalogs/section.py:332-347 | the whole-Candidate check passes if and only if nothing that is left to create is already live |
| CatalogPlans.CollisionsExactly | app/sections/catalogs/section.py:332-347 | the check reports, in order, exactly the names to be created that are live and not recorded as they would be written |
| CatalogPlans.PlansAscend | app/sections/catalogs/apply.py:49-98 | every phase of a plan and of a rollback goes through its names in order |
| CatalogDdl.CreatesRun | app/sections/catalogs/apply.py:166-186 | creating distinct free names is accepted throughout and adds exactly them |
| CatalogDdl.RecreatesRun | app/sections/catalogs/apply.py:166-186 | a drop and a create for each live name is accepted throughout and leaves each with its desired content |
| CatalogDdl.DropsRun | app/sections/catalogs/apply.py:166-186 | dropping distinct live names is accepted throughout and removes exactly them |
| CatalogDdl.PlanRun | app/sections/catalogs/apply.py:166-186 | the statements of a plan that fits what is live are all accepted, and leave the specified outcome |
| CatalogRecovery.ApplyIsOurs | app/sections/catalogs/apply.py:166-186 | no statement of an Apply names a catalog outside the two configurations, and none drops what both have alike |
| CatalogRecovery.RollbackNames | app/sections/catalogs/apply.py:60-98 | no statement of a rollback names a catalog outside the Snapshot and the Secret |
| CatalogRecovery.StopsAreMixtures | app/sections/catalogs/section.py:281-306 | wherever an Apply stops, every managed catalog that is live has its old or its new content, what is common and unchanged is there, and unmanaged catalogs are as they were |
| CatalogRecovery.ApplyReachesDesired | app/sections/catalogs/apply.py:166-186 | from a Cluster in sync every statement of an Apply that passed its check is accepted, and together they leave exactly the desired catalogs beside the unmanaged ones |
| CatalogRecovery.MixturesAreRestored | app/sections/catalogs/section.py:308-330 | from every mixture of two unambiguous configurations, over the new Secret, the rollback is accepted to the end and leaves exactly the Snapshot's catalogs |
| CatalogRecovery.RollbackRestoresExactlyWhenUnambiguous | app/sections/catalogs/apply.py:60-98 | the rollback restores the Snapshot from every point where an Apply can stop if and only if no catalog changes its content without changing its rendering |
| CatalogRecovery.SomeCatalogsAreAmbiguous | app/sections/catalogs/generator.py:29-32 | for every connection URL, user and size there are two catalogs of one curated connector that are rendered alike and served differently |
| CatalogRecovery.CleanUnambiguous | app/sections/catalogs/generator.py:29-32 | clean configurations are never ambiguous |
| CatalogRecovery.CheckInSync | app/sections/catalogs/section.py:332-347 | on a Cluster in sync the check passes if and only if no desired catalog has the name of an unmanaged one |
| CatalogRecovery.RetryCompletesExactlyWhenNothingIsGone | app/sections/catalogs/section.py:294-306 | wherever the first attempt stopped, a retry passes the check and creates no live name; it is accepted throughout, and leaves exactly the desired catalogs, if and only if nothing it replaces or drops is gone |
| CatalogRecovery.GoneExactly | app/sections/catalogs/apply.py:166-186 | something the Apply replaces or drops is gone after `k` statements if and only if it has stopped between the halves of a replacement or among the final drops |
| CatalogRecovery.RetryCompletesExactlyAtRest | app/sections/catalogs/section.py:294-306 | so a retry of an Apply that stopped after `k` statements is accepted to the end if and only if it stopped anywhere else |
| CatalogRecovery.SomeStopsCannotBeRetried | app/sections/catalogs/section.py:294-306 | every Apply that replaces or drops anything has a stop, one statement after its last create, from which a retry is refused |
| CatalogRecovery.CreatePhaseCanBeRetried | app/sections/catalogs/apply.py:101-138 | an Apply that stopped while it was still creating has nothing missing, and so can be retried to completion |
| CatalogRecovery.RepeatCompletesExactlyWithoutDrops | app/sections/catalogs/section.py:294-306 | applying a configuration again that is served already, against the baseline it was first measured against, passes the check, and is accepted to the end if and only if it dropped nothing |
| CatalogRecovery.StoppedRollbackIsFinishedExactly | app/sections/catalogs/section.py:308-330 | a rollback that stopped among its statements, wherever the Apply had stopped, is finished by another if and only if every managed catalog still live is the Snapshot's |
| CatalogRecovery.SomeRollbacksCannotBeRepeated | app/sections/catalogs/section.py:308-330 | after a complete Apply that changed or added a catalog, a rollback that stops right after its Secret is never finished by another |
| CatalogRestarts.CompletedServesTheTarget | app/sections/catalogs/apply.py:166-186 | statements that bring a Cluster to a configuration still do, however often the coordinator restarts from that configuration's Secret between them |
| CatalogRestarts.UndoneAtEveryInstant | app/sections/catalogs/section.py:294-306 | once an Apply's Secret is written, at every instant of any interleaving of its statements with restarts the Cluster is a mixture of the two configurations, and one rollback restores the Snapshot |
| CatalogRecovery.PrefixShape | app/sections/catalogs/apply.py:166-186 | a prefix of an Apply is a shorter plan, done, and possibly one catalog between the halves of its replacement |
| CatalogRecovery.AtMostOneMissing | app/sections/catalogs/apply.py:166-186 | at every prefix at most one catalog common to both configurations is missing |
| CatalogRecovery.UntouchedThroughout | app/sections/catalogs/apply.py:166-186 | what the plan does not touch is live and unchanged at every prefix |
| CatalogRecovery.DropsComeLast | app/sections/catalogs/apply.py:166-186 | once a final drop has been issued every desired catalog is live with its desired content |
| CatalogsSection.Cluster.WriteSecret | app/adapters/kubernetes.py:281-318 | the Secret becomes exactly the data, or the write fails with or without effect, and on a calm Cluster it does not fail; nothing else changes |
| CatalogsSection.Cluster.Execute | app/sections/catalogs/apply.py:166-186 | the three loops issue the plan's statements in order, each accepted when it was issued, with restarts in between and the last possibly failing with effect; success means all of them. On a calm Cluster it succeeds if and only if the live catalogs accept every statement in turn, and what is live is what the accepted ones leave |
| CatalogsSection.Cluster.Apply | app/sections/catalogs/section.py:281-306 | settles first, then writes the Secret, then issues DDL: it leaves what one Apply with restarts in between can leave, and nothing else. On a calm Cluster it succeeds if and only if the settled plan is accepted, and its whole effect is stated |
| CatalogsSection.Cluster.Restore | app/sections/catalogs/section.py:308-330 | plans from the Secret as it stands, writes the Snapshot's Secret and issues the rollback, and reports whether anything was undone. On a calm Cluster it succeeds if and only if the rollback is accepted, and its whole effect is stated |
| CatalogsSection.Cluster.Restart | app/sections/catalogs/section.py:294-306 | a pod that comes back serves what its Secret seeds; unmanaged catalogs survive only from files of their own; a calm one comes back if and only if its Secret reads |
| CatalogsSection.ApplyFromSync | app/sections/catalogs/section.py:281-306 | an Apply that passed its check leaves a Cluster in sync partway to the desired configuration, and on success all the way, whenever the coordinator restarts |
| CatalogsSection.CheckedApplyIsAccepted | app/sections/catalogs/section.py:281-306 | undisturbed, an Apply that passed its check on a Cluster in sync is accepted to the end and serves exactly the desired catalogs beside the unmanaged ones |
| CatalogsSection.RestartServesOneConfiguration | app/sections/catalogs/section.py:294-306 | wherever such an Apply is stopped, its Secret is one of the two renderings and a restart serves exactly that configuration |
| CatalogsSection.RollbackBrings | app/sections/catalogs/section.py:308-330 | from anywhere an Apply can stop the rollback's statements bring the Cluster to the Snapshot and name nothing unmanaged |
| CatalogsSection.RollbackIsAccepted | app/sections/catalogs/section.py:308-330 | undisturbed, a rollback from anywhere an Apply can stop is accepted to the end and serves exactly the Snapshot |
| CatalogsSection.RollbackServesAll | app/sections/catalogs/section.py:308-330 | whatever was live and recorded, a rollback that is accepted to the end leaves every catalog of the Snapshot live |
| CatalogsSection.RestartServesAll | app/pipeline/auto_rollback.py:60-70 | and so does a coordinator that restarts from the Snapshot's Secret |
| CatalogsSection.RestoreReturns | app/sections/catalogs/section.py:308-330 | a completed rollback from there is in sync with the Snapshot again, also when the coordinator restarts once the Secret is written |
| CatalogsSection.OvertakenRestoresExactly | app/sections/catalogs/section.py:308-330 | a rollback planned before a restart and issued after it, if accepted, restores the Snapshot if and only if every catalog that was only to be added was live when the plan was made |
| CatalogsSection.SomeRollbacksAreOvertaken | app/sections/catalogs/section.py:308-330 | every Apply that adds something and drops nothing has such a rollback: stopped once its Secret was written, undone after a restart, accepted and not restored |
| CatalogsSection.NothingDiffersExactlyInSync | app/sections/catalogs/section.py:327-330 | from anywhere an Apply can stop, a rollback reports that something changed if and only if the Cluster was not in sync with the Snapshot |
| CatalogsSection.RestartPartway | app/sections/catalogs/section.py:294-306 | a restart partway leaves the Cluster partway: it serves one whole configuration |
| CatalogsSection.AdoptedIsSettled | app/sections/catalogs/apply.py:101-138 | the Apply that adopts passes its check, and everything it plans is settled: it issues nothing |
| CatalogsSection.AdoptingChangesNothing | app/api/adoption.py:189-196 | whether it succeeds or fails, wherever it stops and whenever the coordinator restarts, the Cluster is left as adopted |
| CatalogsSection.RollbackWithoutSnapshot | app/pipeline/engine.py:205-208 | with no Snapshot a rollback is accepted to the end and removes exactly the live catalogs the Secret records |
| CatalogsSection.AdoptingIsUndoneExactlyWhenNothingWasAdopted | app/pipeline/engine.py:205-208 | a failed adopting Apply that is rolled back leaves the unmanaged catalogs and an empty Secret; that is where it began if and only if nothing was adopted |
| PipelineSafety.NextKeeps | app/pipeline/applies.py:378-475 | every step, request, failure, crash and restart keeps the invariant relating the record's stage, the Candidate, the Snapshots and what the Cluster serves |
| PipelineSafety.RunsKeep | app/pipeline/applies.py:378-554 | the invariant holds at every instant of every run |
| PipelineTheorems.ValidatingHasTouchedNothing | app/pipeline/applies.py:393-404 | a stage is recorded before its work: in every run, while the last record says VALIDATING the Cluster is on the latest Snapshot |
| PipelineTheorems.InterruptedIsUndone | app/pipeline/applies.py:485-505 | in every run, wherever an Apply was cut short between APPLYING and VERIFYING, also among its statements, a rollback by the next process that completes puts the Cluster on the latest Snapshot |
| PipelineSafety.PutsBackIsSafe | app/pipeline/auto_rollback.py:43-77 | a rollback that succeeds leaves the Cluster on the latest Snapshot |
| PipelineTheorems.QuietMeansInSync | app/pipeline/engine.py:202-217 | in every run, whenever nothing is in flight: the Cluster is on the latest Snapshot unless something happened that the code does not undo, and while a failed rollback is owed the last Apply is an INCIDENT with Maintenance Mode engaged |
| PipelineTheorems.DoubtHasACause | app/pipeline/applies.py:76-86 | what the code does not undo is a rollback that fails, a Commit write that fails, that of the record of COMMITTING included, and a process that dies or a recovery that gives up in either; no other step |
| PipelineTheorems.InSyncUnlessBroken | app/pipeline/engine.py:202-217 | in every run without such a step, whatever else failed or crashed, the Cluster is on the latest Snapshot whenever nothing is in flight; what each such step leaves has its own row under PipelineCrashes |
| PipelineTheorems.FrozenSince | app/api/deps.py:278-300 | from validation to the re-deriving the Candidate stays what was captured, through every request, failure, crash and restart, unless an Admin imports one |
| PipelineTheorems.WhoChangesTheCandidate | app/api/admin.py:249-287 | the Candidate changes only when an Apply re-derives it and by requests that Maintenance Mode stops; while one is in flight that is an Admin's import, from the latest Snapshot |
| PipelineTheorems.CommitsWhatWasValidated | app/pipeline/engine.py:222-259 | every Snapshot ever added is the Candidate that the same Apply validated earlier in the run, and still is the Candidate unless an Admin imported one since |
| PipelineTheorems.RederivesWhatWasValidated | app/pipeline/engine.py:246-258 | re-deriving the Candidate gives back what the same Apply validated, which it still was unless an Admin imported one since: no Operator edit is lost |
| PipelineTheorems.CommitsWhatIsServed | app/pipeline/engine.py:222-259 | any step that adds a Snapshot adds exactly one, with the next number; its record walked VALIDATING to VERIFYING; and unless something happened that the code does not undo, it is what the Cluster serves at that moment |
| PipelineTheorems.RunsGrow | app/pipeline/snapshots.py:84-100 | across any stretch of a run no Snapshot changes or is lost, histories only grow, and a terminal record stays terminal |
| PipelineTheorems.OnlyVerifiedIsCommitted | app/pipeline/engine.py:194-200 | COMMITTING is reached only by a Verification that sees every desired catalog live |
| PipelineTheorems.RequestsArrive | app/api/deps.py:278-300 | the requests that the runs allow for: an edit whenever the gate is open, an Admin's import unless Maintenance Mode is engaged, also in flight, and an Admin's hand on Maintenance Mode |
| PipelineTheorems.AnythingMayStop | app/pipeline/applies.py:485-531 | the process may die at any moment and start again, and so may the coordinator |
| PipelineTheorems.WorkMayBeCutShort | app/pipeline/applies.py:485-505 | and whatever an Apply or a rollback can leave half done on the Cluster may be what the next process finds |
| PipelineTheorems.ClosedUntilReleased | app/pipeline/applies.py:449-468 | from the step in which a rollback fails no state before an Admin's release lets an Operator edit through, in the process that ran the Apply and in the one after it, unless that process dies, or its recovery gives up, before Maintenance Mode is engaged |
| PipelineTheorems.FailedRollbackIsAnIncident | app/pipeline/applies.py:449-468 | a rollback that has failed ends as an INCIDENT of the last Apply with Maintenance Mode engaged, unless an Admin releases or the process dies while declaring it |
| PipelineTheorems.TerminalBeforeTouching | app/pipeline/applies.py:503-530 | recovery has made the record terminal before it touches the Cluster |
| PipelineTheorems.RecoveryEnds | app/pipeline/applies.py:485-531 | when recovery is done nothing is in flight, the Cluster is on the latest Snapshot unless something happened that the code does not undo, and a failed rollback stands as the last Apply's incident |
| PipelineRecords.WhatItSaysHappened | app/pipeline/applies.py:438-475 | in every run, a record says that its rollback SUCCEEDED only after an attempt for it that put the latest Snapshot back, and FAILED only after one that did not |
| PipelineRecords.InterruptedByARestart | app/pipeline/applies.py:503-508 | in every run, a record says that it was interrupted only after the process started and found it in flight |
| PipelineRecords.OneAttempt | app/pipeline/applies.py:438-446 | in every run, however often the process dies and starts again, an Apply is rolled back at most once, an attempt cut short included |
| PipelineRecords.TheVerdictIsFinal | app/pipeline/applies.py:449-475 | in every run, a record never says two different things of its rollback |
| PipelineRecords.RecordsTell | app/pipeline/applies.py:378-475 | at every instant of every run: a success names a Snapshot that exists; an INCIDENT has a failed rollback; what left ROLLING_BACK as FAILED without a restart has a completed one; and there is an outcome only on records that were rolled back |
| PipelineCrashes.LeavesAsFound | app/pipeline/applies.py:503-530 | from any stage that is not rolled back from, VALIDATING, COMMITTING, ROLLING_BACK or terminal, a restart leads to the record failed, nothing in flight, and nothing else changed |
| PipelineCrashes.CrashIsLeftAlone | app/pipeline/applies.py:503-530 | after a crash in such a stage, at whatever point, the next start leaves the Cluster, the Candidate, the Snapshots and what is owed alone, and opens the gate if and only if Maintenance Mode was not engaged |
| PipelineCrashes.CrashWhileRestoringIsLeftAlone | app/pipeline/applies.py:503-530 | so does a crash in the middle of a rollback: what it had issued stays |
| PipelineCrashes.CrashBeforeEngagingOpensTheGate | app/pipeline/applies.py:451-456 | a process that dies after its rollback failed and before Maintenance Mode is engaged leaves the gate open with the failed rollback owed |
| PipelineCrashes.DyingAfterAFailedRollback | app/pipeline/applies.py:451-456 | in every run in which a rollback fails and the process then dies, the next start opens the gate if and only if Maintenance Mode was not engaged before |
| PipelineCrashes.CrashAfterEngagingKeepsItClosed | app/pipeline/applies.py:455-456 | one that dies after engaging leaves the gate closed, on a record that says FAILED |
| PipelineCrashes.CrashBeforeRestoringIsNotUndone | app/pipeline/applies.py:447-450 | a process or a recovery that dies about to roll back is not resumed; the Cluster is then on the latest Snapshot if and only if a rollback would have found nothing to undo |
| PipelineCrashes.CrashAfterRestoringIsHarmless | app/pipeline/applies.py:469-470 | one that dies once its rollback has succeeded leaves the Cluster on the latest Snapshot |
| PipelineCrashes.CrashWhileCommittingIsNotUndone | app/pipeline/applies.py:80-86 | after a crash in COMMITTING before the Snapshot is written the new configuration stays; that is the latest Snapshot if and only if the two are served and recorded alike |
| PipelineCrashes.FailedCommitIsNotUndone | app/pipeline/applies.py:80-86 | so it is when the write of the Snapshot fails without effect in a process that lives: FAILED, the gate open, the same exact condition |
| PipelineCrashes.FailedEntryIsNotUndone | app/pipeline/applies.py:400-402 | and when the write of the record of COMMITTING fails, with or without effect: FAILED, neither committed nor undone, the same exact condition |
| PipelineCrashes.FailingAfterTheSnapshotStaysInSync | app/pipeline/engine.py:222-257 | once the Snapshot is written a failing Commit write leaves the Cluster on the latest Snapshot, with the Candidate as it was or re-derived |
| PipelineCrashes.CrashAfterTheSnapshotStaysInSync | app/pipeline/engine.py:222-257 | and so does a process that dies there, with the Candidate as it was |
| PipelineCrashes.AbortedRecoveryIsLeftAlone | app/main.py:136-144 | recovery that raises, at any point, touches nothing more, and the gate is then open if and only if Maintenance Mode is not engaged and no record is in flight |
| PipelineCrashes.AbortingBeforeEngagingOpensTheGate | app/pipeline/applies.py:542-549 | recovery that raises after its rollback failed and before Maintenance Mode is engaged leaves the gate open at once, with the failed rollback owed |
| PipelineCrashes.AbortingAfterAFailedRollback | app/pipeline/applies.py:542-549 | in every run in which a recovery's rollback fails and the recovery then raises, the gate is open if and only if Maintenance Mode is not engaged, with the failed rollback owed |
| PipelineCrashes.AbortingBeforeRestoringIsNotUndone | app/pipeline/applies.py:503-530 | recovery that raises between making a record FAILED and its rollback leaves the Cluster on the latest Snapshot if and only if a rollback would have found nothing to undo |
| PipelineCrashes.CutShortExactly | app/pipeline/applies.py:449-468 | in every run, whichever way the declaring of a failed rollback is cut short and however long after it failed, it stays owed, and the gate is open next if and only if Maintenance Mode is not engaged |
| ApplyRunner.ReachesKeeps | app/pipeline/applies.py:378-475 | any property that every step keeps is kept by every method of the runner |
| ApplyRunner.InvReaches | app/pipeline/applies.py:378-475 | and the invariant is such a property |
| ApplyRunner.Apchi.Advance | app/pipeline/applies.py:215-223 | a record's stage and history are written together, or the write fails with or without effect, whatever the stage; undisturbed it does not fail |
| ApplyRunner.Apchi.ValidateStage | app/pipeline/engine.py:80-111 | captures the Candidate and its baseline and checks the plan; failing touches nothing; undisturbed it succeeds if and only if the check passes |
| ApplyRunner.Apchi.ApplyStage | app/pipeline/engine.py:151-173 | the Apply stage takes only pipeline steps; undisturbed it succeeds if and only if the statements of the settled plan are accepted |
| ApplyRunner.Apchi.RollOutStage | app/pipeline/engine.py:185-192 | the Rollout stage takes only pipeline steps; it succeeds only if the coordinator has restarted, and undisturbed if and only if the Secret reads |
| ApplyRunner.Apchi.VerifyStage | app/pipeline/engine.py:194-200 | the Verification stage takes only pipeline steps; it succeeds only if every desired catalog is live, and undisturbed whenever they are |
| ApplyRunner.Apchi.CommitStage | app/pipeline/engine.py:222-259 | two writes, the Snapshot first and then the Candidate re-derived from it; either may fail, with or without effect; undisturbed both succeed |
| ApplyRunner.ReadyFrom | app/pipeline/engine.py:151-200 | along any run without doubt, a stage that has been reached has what it needs: the plan fits, the Secret reads, every desired catalog is live |
| ApplyRunner.RestorableFrom | app/pipeline/auto_rollback.py:43-77 | and a rollback that is about to be attempted will be accepted to the end |
| ApplyRunner.Apchi.Walk | app/pipeline/applies.py:383-410 | the loop over stages takes only pipeline steps, and its history has each stage in order, the Rollout exactly when it is needed; nothing is committed before COMMITTING, and then exactly the Candidate as it was when the loop began; undisturbed it raises exactly when the check does not pass, in VALIDATING |
| ApplyRunner.Apchi.Run | app/pipeline/applies.py:378-436 | a success has walked every stage, the Rollout exactly when it is needed, has committed one Snapshot, the Candidate it captured, names it and re-derived the Candidate from it; an incident has Maintenance Mode engaged, a failed rollback on its record and no Snapshot; no other record changes. Undisturbed, from a Cluster in sync, an Apply that passes its check SUCCEEDS and is served, and one that does not FAILS with nothing touched |
| ApplyRunner.Apchi.Fail | app/pipeline/applies.py:418-434 | a failure of a stage that touched the Cluster gets a rollback, and its outcome is on the record; any other leaves the Cluster and Maintenance Mode as they were; undisturbed the Cluster ends on the latest Snapshot |
| ApplyRunner.Apchi.PutBack | app/pipeline/auto_rollback.py:43-77 | one attempt: the rollback, the restart when one is needed, and a Verification that every catalog of the Snapshot is live; it succeeds only with all three, and undisturbed whenever the rollback is accepted and the coordinator would come back |
| ApplyRunner.Apchi.RollBack | app/pipeline/applies.py:438-475 | one attempt and no retry; the record says SUCCEEDED and FAILED after a Cluster that was put back, and FAILED and INCIDENT otherwise, with Maintenance Mode before the record leaves ROLLING_BACK; if engaging raises, the record stays in flight |
| ApplyRunner.Apchi.RecoverInterrupted | app/pipeline/applies.py:485-531 | the loop terminates and takes only pipeline steps; what was over stays as it was, and each record that was in flight is resolved exactly: interrupted, FAILED, and only if it had touched the Cluster with the outcome of its rollback, an INCIDENT if that failed. It ends early only if a write failed; undisturbed it is done, with the Cluster on the latest Snapshot |
| ApplyRunner.Apchi.UndoOne | app/pipeline/applies.py:529-554 | the Cluster is rolled back for a record that had touched it, and for no other; the record says SUCCEEDED exactly when the Cluster was put back, and otherwise FAILED and then INCIDENT, with Maintenance Mode engaged; each write may fail, with or without effect |
| RegexEscape.UnescapeEscape | app/sections/permissions/generator.py:248-263 | the substitution undoes the escaping of every name on one line |
| RegexEscape.EscapeInjective | app/sections/permissions/generator.py:140-156 | different names are escaped differently |
| RegexEscape.NameBehindExactly | app/sections/permissions/generator.py:248-263 | a name is read out of a pattern if and only if the pattern is that name escaped and anchored, up to one trailing line feed |
| RegexEscape.NameBehindOneLine | app/sections/permissions/generator.py:251-263 | without line feeds the accepted patterns are exactly the anchored names, and each gives its one name back |
| PatternMatching.AnchoredMatchesExactly | app/sections/permissions/generator.py:140-156 | an escaped and anchored name, read as a regular expression, matches that name and no other text, whatever characters it holds |
| PatternMatching.UnescapedDot | app/sections/permissions/generator.py:140-156 | where an unescaped dot matches any character but a line feed, an escaped one matches a dot |
| PatternMatching.EscapedCharacters | app/sections/permissions/generator.py:140-156 | exactly which characters are escaped |
| PermissionsParser.RulesInBlock | app/sections/permissions/generator.py:329-336 | the rules of a block, or the first item that is not an object |
| PermissionsParser.ReadTables | app/sections/permissions/generator.py:345-363 | the loop over the `tables` rules computes the specified grants, preserved rules and enforcement flag |
| PermissionsParser.ReadBlock | app/sections/permissions/generator.py:372-376 | the loop keeps exactly the rules Apchi would not have generated, in order |
| PermissionsParser.ParseRules | app/sections/permissions/generator.py:292-378 | the loops over blocks and rules compute the specified parse, with the grants read before the blocks that depend on them |
| PermissionsRoundTrip.GrantSurvives | app/sections/permissions/generator.py:266-289 | a grant with one-line names is read back from its own rule |
| PermissionsRoundTrip.AcceptedRuleIsRendered | app/sections/permissions/generator.py:140-156 | rendering an accepted rule's grant gives the identical rule |
| PermissionsRoundTrip.GrantRuleIsReserved | app/sections/permissions/generator.py:51-69 | a grant renders to Apchi's reserved rule if and only if it is that very access |
| PermissionsRoundTrip.ParsedIsSettled | app/sections/permissions/generator.py:292-378 | what parsing returns is valid grants under their own keys, and preserved rules none of which Apchi would recognise as its own |
| PermissionsRoundTrip.TablesReadBack | app/sections/permissions/generator.py:210-221 | the rendered `tables` block reads back as its grants but for the reserved one, its preserved rules in order, and the flag |
| PermissionsRoundTrip.RenderedBlocksRead | app/sections/permissions/generator.py:222-230 | every other rendered block reads back as exactly what was preserved, in order, including the per-identity `queries` rules that depend on the grants; where the preserved rules stand among the generated ones is what PermissionsBlocks states |
| PermissionsRoundTrip.FixpointExactly | app/pipeline/discovery.py:399-474 | parsing what is rendered from a parse gives that parse again, if and only if Apchi's reserved access was not read as a grant |
| PermissionsRoundTrip.FixpointOnOneLine | app/pipeline/discovery.py:399-474 | so it does for every document without line feeds in its table patterns |
| PermissionsRoundTrip.TrailingLineFeedIsLost | app/sections/permissions/generator.py:248-263 | for every identity and catalog, a document that is not a fixpoint |
| PermissionsEvaluation.WhoDecides | app/sections/permissions/generator.py:202-221 | which rule decides a request: Apchi's own, else the covering grant with the least key, else the first preserved rule that matches, else the catch-all or nothing |
| PermissionsEvaluation.GrantMatches | app/sections/permissions/generator.py:140-156 | a grant's rule matches exactly the requests of its identity for what it names |
| PermissionsEvaluation.GrantGives | app/sections/permissions/generator.py:140-156 | and gives exactly the privileges it lists |
| PermissionsEvaluation.ApchiAlwaysReads | app/sections/permissions/generator.py:51-69 | whatever is granted or preserved, Apchi's identity gets SELECT on the verification catalog |
| PermissionsEvaluation.EnforcingRevokesExactlyTheUnmatched | app/sections/permissions/generator.py:210-221 | enforced and unenforced files differ exactly on requests that no reserved, granted or preserved rule matches, where one gives no privilege and the other each of Trino's six |
| PermissionsEvaluation.GrantsToOthersDoNotMatter | app/sections/permissions/generator.py:140-156 | a grant to one identity changes nothing for any other |
| PermissionsEvaluation.GrantDecidesExactly | app/sections/permissions/generator.py:209-220 | among any grants, the one that decides a request it covers is the one with the least key among those that cover it, and on Apchi's own access only a grant of that very access |
| PermissionsEvaluation.NarrowerGrantIsShadowed | app/sections/permissions/generator.py:209-220 | beside a grant on the whole catalog, whatever else is granted, a grant to the same identity on a schema of it never decides when its place sorts after `*:*` |
| PermissionsEvaluation.NarrowerGrantTakesEffectExactly | app/sections/permissions/generator.py:209-220 | with just these two the schema's grant decides what it covers if and only if its place sorts before `*:*`; otherwise the catalog's does |
| PermissionsEvaluation.FirstLetterDecides | app/sections/permissions/model.py:73-84 | unless it begins with the star itself, a schema's place sorts before `*:*` if and only if its first character sorts before the star |
| PermissionsEvaluation.ReaderOfAllCannotWriteSome | app/sections/permissions/generator.py:209-220 | for every identity, catalog and schema whose name sorts after the star, who may read all of the catalog and write the schema is given SELECT alone there |
| PermissionsEvaluation.AnnCannotWriteToSalesHr | app/sections/permissions/generator.py:209-220 | so it is for ann, who may read `sales` and write `sales.hr` |
| PermissionsBlocks.WhoOwnsCatalogs | app/sections/permissions/generator.py:205-209 | first match over the `catalogs` block: Apchi's identity owns every catalog, for anyone else the first preserved rule that matches decides, and otherwise everything is allowed |
| PermissionsBlocks.WhoMayQuery | app/sections/permissions/generator.py:72-109 | first match over the `queries` block: Apchi's identity may execute, view and kill; an identity with a grant may view and kill its own; then the preserved rules; and everyone else may execute, and nothing more |
| PermissionsBlocks.WhoMayExecute | app/sections/permissions/generator.py:112-137 | first match over the `procedures` block: everyone may execute `system.runtime.kill_query`, and about any other procedure the preserved rules decide alone |
| PermissionsBlocks.TablesDecide | app/sections/permissions/generator.py:210-221 | what is proved of decisions about tables is about the block of that name in the file |
| PermissionsBlocks.BlocksExactly | app/sections/permissions/generator.py:204-231 | the file has the four blocks and every other preserved one, as it was |
| PermissionsBlocks.ReadAsGrantExactly | app/sections/permissions/model.py:20-70 | a one-line grant's rule is read as that grant if and only if it is not Apchi's own access and the API would take it: name lengths, no colon, a table only in a schema, and at least one of the six privileges and no other |
| PermissionsBlocks.KeysExactly | app/sections/permissions/model.py:73-79 | how a grant is addressed, with a star for what it leaves open |
| CertificateMapping.RenderRules | app/sections/certificate_mapping/generator.py:78-99 | the loop appends the rules in the order first match gives meaning to |
| CertificateMapping.ReadBody | app/sections/certificate_mapping/generator.py:152-163 | the loop takes the first acceptable rule and reports every other in order |
| CertificateMapping.OneRuleExactly | app/sections/certificate_mapping/generator.py:152-170 | which single rule is taken as the Operator's, with its defaults and limits, which is reported, and which makes the file unreadable |
| CertificateMapping.OutsideExactly | app/sections/certificate_mapping/generator.py:132-136 | everything beside the rules is reported in key order, ahead of any rule, and nothing else is reported as outside |
| CertificateMapping.ParseRules | app/sections/certificate_mapping/generator.py:102-170 | computes the specified reading, trimming Apchi's two rules by position only |
| CertificateMapping.NoRuleIsLost | app/sections/certificate_mapping/generator.py:142-163 | every rule of any file is Apchi's in Apchi's place, at the one index taken as the Operator's, or reported at its index |
| CertificateMapping.RoundTrip | app/sections/certificate_mapping/generator.py:142-150 | with nothing preserved the round trip is exact, whatever the Operator's pattern is |
| CertificateMapping.PreservedAreReported | app/sections/certificate_mapping/generator.py:116-120 | with an Operator's pattern, reading returns it and reports every preserved rule in order |
| CertificateMapping.ResourcesSurviveExactly | app/sections/certificate_mapping/generator.py:78-99 | the Operator's resources survive if and only if there is a pattern or nothing is preserved |
| CertificateMapping.WhoMaps | app/sections/certificate_mapping/generator.py:78-93 | Apchi keeps its own identity, the Operator's pattern comes before the preserved ones, and nobody is refused |
| CertificateMapping.WhoBecomesWhom | app/sections/certificate_mapping/generator.py:78-93 | whom each subject is mapped to: itself for Apchi's identity, what the Operator's pattern or the first preserved one says, and otherwise the name presented |
| Cursor.SplitJoin | app/api/pages.py:59-82 | splitting a join gives the parts back when none holds the separator |
| Cursor.Utf8Exactly | app/api/pages.py:66-77 | bytes decode to a text if and only if they are that text's encoding |
| Cursor.PaddingRestored | app/api/pages.py:66-76 | for every number of bytes, stripping the padding and adding `-len % 4` characters restores section 5 of RFC 4648's form |
| Cursor.ScanBase64 | app/api/pages.py:77 | the lenient decoder gives back exactly the encoded bytes |
| Cursor.CursorRoundTripsExactly | app/api/pages.py:59-82 | a cursor gives its parts back if and only if there is one and none holds 0x1F |
| Cursor.OtherCollectionsAreRefused | app/api/pages.py:69-82 | a cursor with another number of parts is always refused |
| Cursor.OutsideAsciiIsRefused | app/api/pages.py:69-82 | a cursor with a character outside ASCII is refused |
| Cursor.OtherCharacters | app/api/pages.py:75-77 | of a mangled cursor, characters outside both alphabets are passed over, and the standard alphabet is read like the URL-safe one |
| Cursor.PaddingEnds | app/api/pages.py:75-77 | and a group that was begun must be ended, by digits or by the pads it lacks; what follows those is not looked at |
| Cursor.CursorsIdentify | app/api/pages.py:59-66 | different positions have different cursors |
| Cursor.JoinedExactly | app/api/pages.py:59-66 | the parts stand with 0x1F between them |
| Cursor.EncodedExactly | app/api/pages.py:59-66 | the bytes of each character are its UTF-8 encoding, by value |
| Cursor.QuadExactly | app/api/pages.py:59-66 | three bytes are the four digits of one number |
| Cursor.AlphabetExactly | app/api/pages.py:59-66 | in the URL-safe alphabet of section 5 of RFC 4648 |
| Pages.PageCovers | app/api/pages.py:85-96 | a page descends, holds only matching rows under the cursor, and leaves none between itself and the next cursor |
| Pages.PageIsFull | app/api/pages.py:85-96 | a page holds as many rows as were asked for, held between 1 and 500, or all there are under the cursor; and has a next exactly when there are more |
| Pages.NoneDeliveredTwice | app/api/pages.py:85-96 | what a walk delivers strictly descends, whatever rows come or go between its pages, for any limits and any equal timestamps |
| Pages.NoneSkipped | app/api/pages.py:85-96 | a finished walk has delivered every matching row that was there throughout |
| Pages.OnlyMatchingRows | app/audit/events.py:272-311 | every delivered row matched when its page was read |
| Pages.WalkIsTheFirstCollection | app/api/pages.py:13-15 | while rows are added only at the head, a walk delivers exactly the collection it began with, in order |
| Pages.WalkEnds | app/api/pages.py:13-15 | and then it ends, within one page more than there were rows |
| SnapshotStore.IntRoundTrip | app/pipeline/snapshots.py:103-109 | a number written in decimal is read back |
| SnapshotStore.DecimalExactly | app/pipeline/snapshots.py:69-72 | how a number is written |
| SnapshotStore.NumbersAreRead | app/pipeline/snapshots.py:103-109 | what a cursor's text must be to be read as a number: digits with single underscores between them, perhaps with a sign, in any white space |
| SnapshotStore.CursorNamesItsSnapshot | app/pipeline/snapshots.py:69-72 | a `next` handed back names the Snapshot it came from |
| SnapshotStore.Store.Latest | app/pipeline/snapshots.py:46-48 | the document with the greatest number, or none |
| SnapshotStore.Store.SectionsOf | app/pipeline/snapshots.py:74-82 | every Section's resources in a Snapshot, or the empty baseline |
| SnapshotStore.Store.Commit | app/pipeline/snapshots.py:84-100 | numbers stay 1 to n without a gap, the new one is n + 1, and no earlier Snapshot changes |
| SnapshotStore.Store.PageFrom | app/pipeline/snapshots.py:54-72 | the page under the number in the cursor, or a refused cursor |
| SnapshotStore.HistoryIsReadExactly | app/pipeline/snapshots.py:54-72 | following text cursors while Snapshots are committed gives exactly n, n - 1, ..., 1 for the n there were, and ends |
| AuditStore.NextIsFollowed | app/audit/events.py:146-152 | a `next` handed back stands exactly where its page ended |
| AuditStore.Store.RecordEach | app/audit/events.py:214-262 | the events of one request are appended under one instant, and no earlier event changes |
| AuditStore.Store.PageFrom | app/audit/events.py:272-311 | the page of events that match the filter under the cursor, or a refused cursor |
| AuditStore.FilterNarrows | app/audit/events.py:272-311 | what each criterion of the filter asks for: that category, that actor, not before, not after |
| AuditStore.TrailIsRead | app/audit/events.py:272-311 | following text cursors through a filter while events are recorded or expire: never refused, newest first, none twice, none skipped that was there throughout |
| KubernetesAdapter.Cluster.WriteSecret | app/adapters/kubernetes.py:281-318 | the merge patch, with a null for each stale key, makes the contents exactly the data |
| KubernetesAdapter.Cluster.MountSecretFile | app/adapters/kubernetes.py:403-446 | volumes merge by name and mounts by path |
| KubernetesAdapter.Cluster.UnmountSecretFiles | app/adapters/kubernetes.py:458-491 | one patch, taken whole, or refused whole when a mount would be left without its volume |
| KubernetesAdapter.UnmountingIsSoundExactly | app/adapters/kubernetes.py:458-491 | dropping a volume is accepted if and only if every mount that names it goes with it |
| Delivery.SortBySecret | app/pipeline/files.py:79-108 | the loops compute the specified contents of each Secret, or the paths nothing declares |
| Delivery.RaisesExactly | app/pipeline/files.py:104-107 | the call raises if and only if a rendered path is claimed by no declaration |
| Delivery.EachFileLandsExactly | app/pipeline/files.py:79-108 | only rendered content is written, and every non-empty file is found where it belongs if and only if no two clash over a key |
| Delivery.PathParts | app/pipeline/files.py:98-103 | a path taken apart is its directory and its name, in a directory, in the root and in neither |
| Delivery.DirectoryClaimsExactly | app/pipeline/files.py:98-103 | a declared directory claims exactly the paths directly in it |
| Delivery.DirectoryHoldsExactly | app/pipeline/files.py:98-103 | when nothing raises, the Secret of a declared directory holds exactly the files rendered in it that have content, each under its own name |
| Mounting.Deliver | app/pipeline/files.py:27-66 | the Secrets and the pod template become exactly what is specified; nothing is written when a path is undeclared |
| Mounting.DeliverOne | app/pipeline/files.py:45-64 | one volume: mount what has content, unmount the rest in one patch |
| Mounting.VolumesInOrder | app/pipeline/files.py:68-76 | volumes are settled in the order in which they were first declared |
| Mounting.WouldChange | app/pipeline/files.py:116-131 | answers yes if and only if some Secret to be written differs |
| Mounting.DeliverThenAsk | app/pipeline/files.py:116-131 | asking straight after a delivery answers no |
| Mounting.GroupSettled | app/pipeline/files.py:45-64 | after one volume is settled, each place and each volume is as declared and all others are as they were |
| DeliveryTheorems.VolumesSettled | app/pipeline/files.py:45-64 | the same after any number of volumes |
| DeliveryTheorems.AlwaysSound | app/pipeline/files.py:41-43 | at no step is a volume gone that a mount still names |
| DeliveryTheorems.NeverRefused | app/pipeline/files.py:41-64 | when Apchi's volumes are its own no patch is refused, and they stay its own |
| DeliveryTheorems.RefusedForAForeignMount | app/pipeline/files.py:41-64 | a foreign mount on a volume that has become empty gets the delivery refused |
| DeliveryTheorems.DeliveredFilesAreRead | app/pipeline/files.py:27-66 | the container reads exactly the rendered content of every declared file, and where nothing was rendered nothing is mounted |
| DeliveryTheorems.VolumeExistsExactly | app/pipeline/files.py:41-64 | a declared volume exists if and only if a file on it has content |
| DeliveryTheorems.OthersUntouched | app/pipeline/files.py:45-64 | mounts and volumes that are not Apchi's stay as they were |
| DeliveryTheorems.DeliveringAgainChangesNothing | app/adapters/kubernetes.py:403-408 | delivering the same again leaves the pod template as it is |
| RawFiles.Deliver | app/pipeline/raw_files.py:201-250 | the Secret and the pod template become exactly what is specified |
| RawFiles.Changed | app/pipeline/raw_files.py:272-287 | answers yes if and only if the mounted paths or the Secret differ from what is wanted |
| RawFiles.RefusedExactly | app/pipeline/raw_files.py:234-244 | refused if and only if the last raw file goes while something else is on the volume |
| RawFiles.PlacesAfter | app/pipeline/raw_files.py:223-244 | where each place ends: its file, nothing, or as it was |
| RawFiles.VolumeAfter | app/pipeline/raw_files.py:211-214 | the volume arrives with the first file and leaves with the last |
| RawFiles.RawFilesAreRead | app/pipeline/raw_files.py:180-193 | each desired file is read at its own path, even where basenames agree |
| RawFiles.SettledExactly | app/pipeline/raw_files.py:253-287 | afterwards the mounted paths are the desired ones, unless and only unless another container mounts a file of the volume elsewhere |
| RawFiles.SomeDeliveriesAreNeverSettled | app/pipeline/raw_files.py:201-287 | for every sidecar and every two paths there is a delivery that is accepted and after which that is the case |
| RawFiles.DeliverThenAsk | app/pipeline/raw_files.py:201-287 | asking straight after a delivery answers no, with the same exact exception |
| Selectors.PredictionIsRight | app/sections/resource_groups/selectors.py:45-78 | a prediction is what first-match evaluation gives for every possible value of what is hidden, whatever the engines make of the selectors after the match |
| Selectors.AnswersExactly | app/sections/resource_groups/selectors.py:60-77 | a prediction is made if and only if every selector looked at is knowable and can be evaluated |
| Selectors.NothingHiddenIsAnswered | app/sections/resource_groups/selectors.py:29-66 | selectors that give none of the three hidden fields, and compile, are always answered |
| Selectors.AnyHiddenIsRefused | app/sections/resource_groups/selectors.py:62-66 | one that gives any of them stops the prediction wherever it is reached |
| Selectors.SelectionNarrows | app/sections/resource_groups/selectors.py:45-78 | what each field of a selector asks of a query |
| Selectors.RefusalIsNecessary | app/sections/resource_groups/selectors.py:8-11 | when the selector it stops at can match one caller and not another, no single answer is right for both |

## Left out

- Runs over Candidates whose property values hold line breaks or whose text a properties file cannot carry: the pipeline theorems are about clean configurations, and the exact condition is proved for a single Apply and rollback.
- CatalogsSection.RestoreReturns: a restart between a rollback's reading of the live names and its Secret write is not a step of the pipeline; what such a rollback leaves is proved by itself.
- Catalogs.SecretSeedsConfiguration: the coordinator is taken to read its files with Apchi's own parser; Java's loader also reads backslash escapes and continued lines, takes `:` or white space for the separator, and `!` for the start of a comment, so it agrees on text without those.
- CatalogsSection.Cluster.Restart: for the same reason the model's coordinator does not come back on a Secret that Apchi's parser cannot read without loss.
- ApplyRunner.Apchi.VerifyStage: Verification is a step that may fail and otherwise has seen every desired catalog live; its queries, polling and smoke test are not modelled.
- Pipeline.Initial: a run begins on a Cluster new to Apchi or just adopted; the steps of an adopting Apply itself are treated for the Catalogs alone, and not in the pipeline.
- Admin Applies and Admin values: the pipeline's Applies are an Operator's, and Admin values captured at validation are constants here.
- The Sections other than Catalogs inside the pipeline: opaque documents recorded in Snapshots; their files are treated in the delivery modules.
- An Operator edit is one step, gate and write together; in the code they are two awaits.
- The validation probe, preconditions, warnings, the audit writes of the pipeline, alerts and the high-water mark.
- Finding the store directory of a cluster being adopted, and certificate names, which no adopted file records.
- Certificates' contents, names that already end in a suffix, the size limit of a Secret, and whether TLS is configured.
- Delivery.BySecret: paths are split at the last slash; the normalisation that pure POSIX paths do to dots and doubled slashes is not modelled.
- KubernetesAdapter.Cluster.MountSecretFile: file modes and the pod's group, and volumes of other kinds than Secrets.
- RawFiles.Deliver: the digest behind a Secret key is any function that gives different paths different keys.
- AuditStore.NextIsFollowed: instants in ISO form and hexadecimal identifiers are any codec that reads back what it writes without the separator.
- SnapshotStore.ReadInt: decimal digits outside ASCII, which Python also accepts.
- Cursor.DecodeCursor: strings are Unicode scalar values, so lone surrogates do not occur.
- Pagination of applies, validations and tokens: they store instants as text and compare them with instants, so the walk theorems are not claimed for them.
- PatternMatching.Matched: regular expressions are read as far as Apchi writes them, that is literal and escaped characters between anchors, and the certificate mapping's `(.*)`; any other expression of an Operator or an Admin is any relation between patterns and texts.
- AccessRules.Meets: a condition on a field that a request does not have is not met, so a rule with `queryOwner` decides only about queries that have an owner; the other blocks a file may hold are kept and not evaluated.
- ApplyRunner.Apchi.Walk: whether a Rollout is needed is given to it; the Sections and raw files that decide it are not part of the pipeline's Clusters.
- ApplyRunner.Apchi.Run: that an undisturbed Apply succeeds is claimed where nothing has happened before that the code does not undo, and with no request and no restart of the coordinator while it runs.
- JSON text: documents are values, read and written as such.
- Messages, summaries and hints; unaccounted rules carry their kind, index and content.
- Raw-file path checks at write time, HTTP routing, authentication, TLS trust, and the clients of MongoDB, Kubernetes and Trino themselves.
