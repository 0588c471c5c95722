# kdef: a verified model

kdef compiles `.kdef` blocks to Kubernetes manifests, and a Flux controller applies the rendered
manifests to a cluster and prunes what is no longer rendered. This project models the parts of
kdef in which something can go wrong between files, between functions or between two attempts,
and proves what they keep. HCL, cty, YAML and the Kubernetes API are outside: the model starts
from parsed blocks, and each API call may succeed, fail, or take effect and still report an error.

The project is read in this order.

* **The controller** (`resource_id`, `release_controller`, `release_safety`, `release_recovery`,
  `release_outcomes`).
  A `Reconciler` holds the cluster, the persisted status and a log of what was asked of the API
  server. Its methods are proved equal to a pure `Step`; runs are sequences of steps mixed with
  other actors deleting objects. Safety and recovery are statements over all runs.
* **Identities** (`blocks`, `identities`, `duplicates`, `ingress_checks`, `ingress_defaults`,
  `loader`, `acceptance`, `project_load`, `root_project`, `flat_load`, `load_results`). The loader's
  checks work on quoted texts and joined keys; they are proved to accept exactly the configs whose
  (kind, namespace, name) triples are distinct, however the blocks are spread over files and nested
  sub-projects. What loads is stated block by block.
* **Generation** (`generator`, `assembly`, `uniqueness`, `collision_free`, `conservation`,
  `generate_theorems`, `generated_objects`, `range_order`, `render`, `pipeline`).
  `Generate` fills its result map in loops; the objects it returns are counted against the blocks
  and proved collision-free for accepted configs, nothing is lost, and the order in which Go ranges
  over maps does not show, each with the exact condition. `pipeline` ends with releases of such
  renders on the controller's runs.
* **Printer and parser pairs** (`annotations`, `durations`, `yaml_stream`).
* **Layers** (`deep_merge`, `layers`, `variables`, `directory_walk`).
* **Two small algorithms** (`pod_spec`, `block_context`).
* Shared ground: `options`, `text`, `seqs`, `stable_sort`, `sorted_keys`.

## What turned out not to hold

Where the code does less than its comments or documentation suggest, the model follows the code,
a lemma gives the failing input, and the exact condition under which the promise is kept is proved
where it depends on the input.

* `LastAttemptedRevision` and `LastHandledReconcileAt` are set before the base of the next status
  patch is copied, so no run ever persists them (`ReleaseRecovery.NotesAreNeverPersisted`).
* A delete that errs is not retried: the attempt succeeds and its inventory forgets the objects it
  did not get to, exactly those (`ReleaseRecovery.FailedDeleteOrphans`), and no later attempt
  deletes them (`ReleaseRecovery.OrphanStays`). Giving up on a half-applied render orphans what it
  created (`ReleaseRecovery.AbandonedRenderOrphans`).
* The target namespace is written into every object, cluster-scoped ones included, and from there
  into the inventory id, while the API server ignores it on these. After a change of target
  namespace a release applies its Namespace, cluster role or CRD, then prunes the very same object
  as the entry of the old id, and says Ready (`ReleaseRecovery.MovedNamespaceIsPruned`). A prune
  spares the new render exactly when no held object is the same cluster object as one of the
  render under another namespace field (`ReleaseSafety.SparedIff`).
* A cluster-scoped name with an underscore, as RBAC names may have, is read back from the inventory
  as an object of a kind that does not exist (`ResourceIds.UnderscoreNameMisread`), so it is never
  pruned (`ReleaseRecovery.UndeletedIff`), and the call that fails on it ends the prune there
  (`ReleaseRecovery.FailedCallOrphans`). Ids still never collide (`ResourceIds.IdInjective`):
  that would take an underscore in a namespace, which no API server accepts
  (`ResourceIds.UnderscoreCollision`).
* A nameless top-level ingress renders under its service's name, which the ingress check does not
  look at, so it can collide with a named block (`GenerateTheorems.NamelessCollides`).
* A workload or cronjob named like a cluster-scoped block's result key, `clusterrole-x` say, is
  dropped from the result (`GenerateTheorems.AcceptedLoses`, `GenerateTheorems.WorkloadLost`), and
  two used accounts on one `sa-` key leave the output to the range order
  (`RangeOrder.RangeOrderExact`, `RangeOrder.AccountsClash`).
* The comment on the variable walk says that deeper levels override shallower ones; for ingress
  defaults that come from imports it is the first import that counts
  (`Variables.FirstImportDefaults`).
* A directory whose name begins with two dots is taken for a parent directory and the levels above
  it are skipped (`DirectoryWalk.WalkIsDescent`).
* Two annotations below the empty prefix, and an annotation named like a shared prefix, do not
  survive import and load (`Annotations.RoundTripExact`).
* An init container that lists a claim template no container declares silently gets no mount
  (`PodSpecs.InitMountsComplete`).
* On a line such as `}, {` in a list of objects the backward brace scan misses the block it opens
  (`BlockContext.OneSidedExactly`).
* The rank tables of the render and of the controller contradict each other: on CSI drivers, on
  accounts and roles against configuration and claims, on cluster role bindings against roles, on
  HTTPRoutes and other unranked kinds against workloads, on jobs and autoscalers against ingresses
  and certificates (`Render.ReversedKinds` has all pairs). Only for CSI drivers does a pod come
  before what it refers to (`ReleaseRecovery.DriverComesLast`).
* A sub-project's ingress check can reject what the root's check of all blocks accepts, when the
  root shares a TLS secret (`FlatLoading.SharedSecretHides`); its duplicate check cannot
  (`FlatLoading.OneDuplicateCheckSuffices`).
* A deadline of more than 2562047788015215 hours wraps around (`Durations.LongDeadlineMisread`).

## Model

| member | source | states |
|---|---|---|
| `ResourceIds.RefRoundTrip` | flux-controller/internal/controller/kdefrelease_controller.go:532-552 | decoding an inventory entry gives back the object it was written for, exactly when namespace, name and group hold no underscore |
| `ResourceIds.IdInjective` | flux-controller/internal/controller/kdefrelease_controller.go:532-535 | two ids are equal exactly when namespace, name, group and kind are, whatever the names, empty namespace or group included, as long as namespaces, groups and kinds are free of underscores, as every API server demands |
| `ResourceIds.UnderscoreCollision` | flux-controller/internal/controller/kdefrelease_controller.go:532-535 | that condition is needed: with an underscore in a namespace, which no API server accepts and so no inventory holds, two ids could be one |
| `ResourceIds.RefReadAs` | flux-controller/internal/controller/kdefrelease_controller.go:538-552 | a prune reads an entry as its own object when the name is free of underscores, and otherwise as one of a kind that no server has |
| `ResourceIds.UnderscoreNameMisread` | flux-controller/internal/controller/kdefrelease_controller.go:538-552 | a name with an underscore is read back as another object of another kind |
| `ReleaseController.Reconciler.Reconcile` | flux-controller/internal/controller/kdefrelease_controller.go:65-189 | whatever each stage and each API call does, the new cluster, status and log and the outcome are those of the pure step that all run theorems speak about; the caller gets an error exactly when the release cannot be read or a status write does not come back, and nothing is done exactly when it is gone or suspended |
| `ReleaseController.OutcomeIs` | flux-controller/internal/controller/kdefrelease_controller.go:65-189 | the same of the pure step |
| `ReleaseOutcomes.StatusSays` | flux-controller/internal/controller/kdefrelease_controller.go:112-188 | the whole status after an attempt: the Ready condition with the reason of the stage it stopped at or with success, Reconciling gone exactly when the last write took effect, and the generation and revision observed by successes only |
| `ReleaseOutcomes.NotBegun` | flux-controller/internal/controller/kdefrelease_controller.go:65-100 | before that the status at most says that the release is being worked on |
| `ReleaseOutcomes.StepLogs` | flux-controller/internal/controller/kdefrelease_controller.go:403-462 | all a deploying attempt asks for, in order: the applies that take effect, the deletions up to and with the first that fails, the record |
| `ReleaseSafety.GiveUpKeeps` | flux-controller/internal/controller/kdefrelease_controller.go:513-529 | a failure, whatever was noted before it, writes conditions and nothing else: not Reconciling, not Ready for the reason; cluster, log, revision and inventory stay |
| `ReleaseController.Reconciler.ApplyObjects` | flux-controller/internal/controller/kdefrelease_controller.go:403-433 | the list is sorted stably in place; exactly a prefix of the sorted list is applied, and the inventory lists that prefix |
| `ReleaseController.Reconciler.PruneObjects` | flux-controller/internal/controller/kdefrelease_controller.go:436-462 | the entries of the old inventory whose id is not in the new one are deleted in order until a call fails for another reason than absence |
| `ReleaseController.Effective` | flux-controller/internal/controller/kdefrelease_controller.go:403-433 | of calls made in order until one errs, those before the error take effect, and the erring one exactly when only its reply was lost |
| `ReleaseSafety.StaleIsGone` | flux-controller/internal/controller/kdefrelease_controller.go:436-462 | what a prune asks to delete, but for kinds no server has, is exactly the held objects with a readable id that the new render does not have, as the server knows them; no entry is skipped |
| `ReleaseSafety.SparedIff` | flux-controller/internal/controller/kdefrelease_controller.go:146-150 | that spares the new render exactly when no held object is the same cluster object as a rendered one under another namespace field, without its own id being rendered; then it is the held objects with readable ids minus the new ones |
| `ReleaseSafety.StepAddsBlock` | flux-controller/internal/controller/kdefrelease_controller.go:65-189 | every delivery appends a prefix of the desired objects in order, then possibly deletions of stale objects, then possibly one record; the stored pair stays the last record's, a new one exactly when the attempt commits |
| `ReleaseSafety.RunKeepsHistory` | flux-controller/internal/controller/kdefrelease_controller.go:152-189 | over every run of renders whose namespaces hold no underscore, recorded objects were applied before their record, deleted ones recorded before |
| `ReleaseSafety.RunStores` | flux-controller/internal/controller/kdefrelease_controller.go:152-189 | over every run at all, the persisted revision and inventory are those of the latest attempt of the run that applied its whole render and whose final write took effect, and hold all its ids |
| `ReleaseSafety.RunIsSafe` | flux-controller/internal/controller/kdefrelease_controller.go:152-189 | over every run with failures anywhere: the stored pair is the latest completed attempt's revision and full id list, and every action only adds to the log; with sound renders, what an action asks to delete, but for kinds no server has, is stale against the latest attempt completed before it, is none of its own objects if that attempt's are spared, and was applied before that completion |
| `ReleaseSafety.AppliedInRankOrder` | flux-controller/internal/controller/kdefrelease_controller.go:375-433 | in the log of any run of any renders, inside a delivery, an object's apply comes after the applies of all desired objects of a lower rank |
| `ReleaseOutcomes.AppliedAsListed` | flux-controller/internal/controller/kdefrelease_controller.go:375-433 | the same with the kinds listed: namespaces and CRDs, configuration, claims, accounts and roles, bindings and Services, what runs pods, ingresses and certificates, autoscalers, the rest |
| `ReleaseOutcomes.AppliedIsRendered` | flux-controller/internal/controller/kdefrelease_controller.go:137-158 | in the log of any run, what an attempt applies is one of its rendered objects, under the target namespace if there is one and its kind has namespaces |
| `ReleaseOutcomes.RenderedIsApplied` | flux-controller/internal/controller/kdefrelease_controller.go:137-158 | and an attempt that commits applied every rendered object |
| `ReleaseRecovery.AttemptKeepsNoStray` | flux-controller/internal/controller/kdefrelease_controller.go:152-189 | an attempt, wherever it stops and whatever fails or is lost, keeps the cluster within inventory and wanted render, exactly unless it commits while something held and no longer wanted is still there |
| `ReleaseRecovery.UndeletedIff` | flux-controller/internal/controller/kdefrelease_controller.go:436-462 | with pruning on and deletes working nothing held and unwanted is left exactly when the ids of all of it can be read; what cannot be read is never deleted |
| `ReleaseRecovery.LostIff` | flux-controller/internal/controller/kdefrelease_controller.go:160-168 | with pruning on and deletes working an attempt deletes none of its own render exactly when what was held is spared |
| `ReleaseRecovery.SuccessLeaves` | flux-controller/internal/controller/kdefrelease_controller.go:152-189 | for every list of delete replies, a successful attempt leaves the render but for what it prunes of it, the strays no inventory knew and what it should have deleted but did not; it leaves the render alone exactly when there is none of the three |
| `ReleaseRecovery.RetryRecovers` | flux-controller/internal/controller/kdefrelease_controller.go:65-189 | after any history without strays or unreadable leftovers, any number of failing retries and then a successful one end with the inventory equal to the render; the cluster equals it exactly when an earlier retry had committed or what was held before is spared |
| `ReleaseRecovery.AbandonedRenderOrphans` | flux-controller/internal/controller/kdefrelease_controller.go:152-189 | objects of a half-applied render that is given up stay on the cluster outside every inventory |
| `ReleaseRecovery.FailedDeleteOrphans` | flux-controller/internal/controller/kdefrelease_controller.go:160-172 | of the inventoried objects on the cluster, a successful attempt orphans exactly those it neither renders nor deletes |
| `ReleaseRecovery.FailedCallOrphans` | flux-controller/internal/controller/kdefrelease_controller.go:447-459 | when the j-th delete fails, its target and all those listed behind it, unless rendered or deleted before, are among them |
| `ReleaseRecovery.OrphanStays` | flux-controller/internal/controller/kdefrelease_controller.go:160-172 | over every further run of deliveries that do not render it, an orphan stays on the cluster outside the inventory |
| `ReleaseRecovery.ReadyMeansLive` | flux-controller/internal/controller/kdefrelease_controller.go:168-189 | unless others delete objects, and if commits spare what was held, a persisted Ready without Reconciling means every recorded object is on the cluster, over every run |
| `ReleaseRecovery.ReadyIffNothingLost` | flux-controller/internal/controller/kdefrelease_controller.go:168-189 | a success always says Ready; its render is then on the cluster exactly when it pruned none of it |
| `ReleaseRecovery.SteadySpares` | flux-controller/internal/controller/kdefrelease_controller.go:146-150 | as long as cluster-scoped objects keep one namespace field, under a constant target namespace for one, every attempt of a run spares what is held |
| `ReleaseRecovery.MovedNamespaceIsPruned` | flux-controller/internal/controller/kdefrelease_controller.go:146-150 | the run in which a target namespace is set on a release of one Namespace: two successes, Ready, and the Namespace is gone |
| `ReleaseRecovery.NotesAreNeverPersisted` | flux-controller/internal/controller/kdefrelease_controller.go:101-110 | the attempted revision and the handled request never reach the stored status |
| `ReleaseRecovery.LowerRanksFirst` | flux-controller/internal/controller/kdefrelease_controller.go:375-433 | what an attempt reached contains, with an object, all desired ones of a lower rank |
| `ReleaseRecovery.PrerequisitesApplied` | flux-controller/internal/controller/kdefrelease_controller.go:375-433 | wherever applying stops, nothing that runs pods was applied without everything of the render it may refer to, a CSI driver excepted |
| `ReleaseRecovery.AppliedBeforePodsIff` | flux-controller/internal/controller/kdefrelease_controller.go:375-400 | exactly the kinds of apply rank below 5 are always applied before what runs pods |
| `ReleaseRecovery.DriverComesLast` | flux-controller/internal/controller/kdefrelease_controller.go:375-400 | a CSI driver is applied after everything that runs pods, and one failing call leaves the pod without it |
| `Identities.IdentityInjective` | internal/parser/duplicates.go:78-83 | the quoted identity texts of two resources are equal exactly when the resources are, for any characters |
| `Identities.QuotePrefixFree` | internal/parser/duplicates.go:78-83 | no quoted text continues another one, so names run together stay apart |
| `Duplicates.DuplicateCheck.RecordId` | internal/parser/duplicates.go:33-45 | an identity is new, or its two origins are reported |
| `Duplicates.DuplicateCheck.Add` | internal/parser/duplicates.go:23-30 | the check's state after a config, with the Service of a duplicated workload skipped |
| `Duplicates.AddOneIs` | internal/parser/duplicates.go:23-45 | a taken resource is reported once and its Service passed over; a new one is kept with its origin, and its Service reported or kept likewise |
| `Duplicates.DuplicateCheck.Err` | internal/parser/duplicates.go:47-52 | nil exactly when nothing was reported |
| `Duplicates.ResourcesOf` | internal/parser/duplicates.go:88-148 | the listed resources are the declared ones in order, workloads with their Services |
| `Duplicates.AddAllLaw` | internal/parser/duplicates.go:23-45 | after a list of resources the check is silent exactly when everything claimed so far is distinct, the skipped Service of a duplicate notwithstanding |
| `Duplicates.ClaimsAreGroups` | internal/parser/duplicates.go:88-148 | what a config claims is, as a multiset, its blocks grouped by kind |
| `Blocks.AllHostsIs` | internal/types/app.go:72-90 | the hosts of an ingress block, each once, without empty ones, in declaration order |
| `Blocks.CollectHosts` | internal/types/app.go:72-90 | the loop over host and hosts keeps first occurrences in order |
| `Blocks.UnnamedApart` | internal/types/app.go:95-103 | unnamed ingress blocks of one workload never share a resource name |
| `Blocks.SecretsMeet` | internal/types/app.go:108-117 | two generated certificates fill one secret exactly when their first hosts differ at most in dots against dashes |
| `IngressChecks.IngressCheck.RecordIngress` | internal/parser/parser.go:477-494 | a block is accepted exactly when it conflicts with none before it; otherwise the conflict names one that holds its name or its secret |
| `IngressChecks.IngressCheck.CheckWorkload` | internal/parser/parser.go:496-514 | a workload's blocks are accepted exactly when they conflict neither with each other nor with earlier ones; otherwise the conflict names two that do |
| `IngressChecks.ValidateIngresses` | internal/parser/parser.go:470-533 | a config is accepted exactly when no two ingress blocks share a resource name or a certificate secret in a namespace |
| `IngressChecks.NoConflictMeans` | internal/parser/parser.go:470-533 | the joined string keys decide exactly what the (namespace, name) pairs do, given namespaces without a slash |
| `IngressDefaulting.WithDefaultsFields` | internal/parser/parser.go:1043-1087 | field by field: own setting over shared one, TLS as a disjunction, annotations overlaid |
| `IngressDefaulting.DefaultsCompose` | internal/parser/parser.go:1043-1087 | a sub-project's defaults followed by the root's are one application of their field-wise merge |
| `IngressDefaulting.ConfigDefaultsCompose` | internal/parser/parser.go:292-295 | two levels of defaults on a whole config are one, and a repeated level changes nothing |
| `Loader.KdefConfig.Append` | internal/parser/parser.go:195-207 | appending a config in place concatenates every block list |
| `Loader.KdefConfig.ApplyIngressDefaults` | internal/parser/parser.go:1043-1087 | the in-place pass rewrites every nested and top-level ingress and nothing else |
| `Loader.KdefConfig.InjectNamespace` | internal/parser/parser.go:306-352 | the in-place pass fills empty namespaces only |
| `Loader.KdefConfig.InjectServiceAccount` | internal/parser/parser.go:355-376 | the in-place pass fills empty service accounts only |
| `ProjectLoad.CheckIsExact` | internal/parser/duplicates.go:23-52 | over any sequence of files, the duplicate check stays silent exactly when no two resources or workload Services of the merged config share kind, namespace and name |
| `ProjectLoad.DefaultsKeepClaims` | internal/parser/parser.go:128-130 | ingress defaults applied after the duplicate check change no identity |
| `ProjectLoad.LoadSingle` | internal/parser/parser.go:49-163 | a project loads exactly when the config it would return passes both checks, and then returns that config; otherwise the error tells which check failed, duplicates first |
| `RootProjects.ValidateNamespaces` | internal/parser/parser.go:380-461 | accepted exactly when every namespaced block has an allowed namespace and every workload a declared account |
| `RootProjects.InjectEntry` | internal/parser/parser.go:255-263 | an entry's namespace and account are injected into its sub-project's blocks when set |
| `RootProjects.LoadRoot` | internal/parser/parser.go:167-303 | a root project loads exactly when it lists entries, each loads by itself, its root-level files have no duplicate, the namespaces pass and the merged, defaulted config passes both checks; entries merge in the order of the sorted names, and the first that does not load is reported |
| `RootProjects.Load` | internal/parser/parser.go:39-47 | from the files of all directories, root projects listed by root projects included: what loads and to which config is one function of the tree |
| `LoadResults.SingleHolds` | internal/parser/parser.go:49-163 | a single project that loads holds all blocks of its files in order; every ingress block, nested ones included, has its own settings where it has any and the shared ones elsewhere, field by field; nothing else differs |
| `LoadResults.RootHolds` | internal/parser/parser.go:167-303 | a root project that loads holds the blocks of its own files and then of its entries in name order, each entry's with namespace and account filled, under the root's ingress defaults, with the root's namespaces and accounts |
| `LoadResults.InjectedPlaces` | internal/parser/parser.go:306-376 | an entry fills empty namespaces and accounts and changes nothing else |
| `LoadResults.RootAllows` | internal/parser/parser.go:380-461 | in what a root project loads to, every namespaced block has an allowed namespace and every workload a declared account |
| `FlatLoading.OneDuplicateCheckSuffices` | internal/parser/duplicates.go:12-52 | a tree of projects loads exactly when it passes all other checks at every level and the identities of all its blocks, merged, injected and defaulted, are distinct at the top: the duplicate checks of sub-projects and root-level files reject nothing more |
| `FlatLoading.InjectionMerges` | internal/parser/parser.go:306-376 | what two blocks share before an entry's namespace and account are injected they share afterwards |
| `FlatLoading.SharedSecretHides` | internal/parser/parser.go:125-135 | two blocks that conflict over a generated secret in their own project do not under a root that shares a secret |
| `SortedKeying.SortedNamesUnique` | internal/parser/parser.go:212-213 | the sorted keys of a map are one sequence, however the map is ranged over |
| `Generator.GenerateDeployment` | internal/generator/deployment_v2.go:15-270 | a deployment's objects: itself, its Service, routes and certificates per ingress block, and the autoscaler |
| `Generator.GenerateStatefulSet` | internal/generator/statefulset.go:13-146 | a statefulset's objects: itself, its Service, routes and certificates |
| `Uniqueness.DaemonSetKeys` | internal/generator/daemonset.go:12-78 | the identities of the daemonsets' objects are the blocks' and those of their Services, the pairs the duplicate check claims |
| `Generator.GenerateStandaloneIngress` | internal/generator/ingress_standalone.go:13-46 | a top-level ingress block's route and certificate |
| `Generator.ResolveIs` | internal/generator/generator.go:97-113 | an account is found exactly when one applies, and a scoped declaration beats a default one |
| `Generator.ResolveIgnoresOrder` | internal/generator/generator.go:97-113 | the order of the declarations does not matter |
| `Assembly.CollectServiceAccountNamespaces` | internal/generator/generator.go:116-158 | the nested map holds exactly the used (account, namespace) pairs |
| `Assembly.Generate` | internal/generator/generator.go:19-91 | the result map is that of all writes in order, the used pairs enumerated account by account in some order |
| `Uniqueness.SlotKeys` | internal/generator/ingress.go:105-110 | a route stands under the block's name or its service's, a certificate under its secret |
| `Uniqueness.ExpectedKeys` | internal/generator/generator.go:19-91 | the identities of everything generated are the groups the checks speak of, plus namespaces, accounts and autoscalers |
| `CollisionFree.RoutesApart` | internal/generator/ingress.go:105-110 | on checked blocks, routes collide exactly through a nameless block |
| `CollisionFree.ObjectsCollisionFree` | internal/parser/parser.go:470-533 | of the objects generated for an accepted config, before the result map merges keys, no two share kind, namespace and name, exactly when no nameless block stands in for another's route |
| `Conservation.TotalIs` | internal/generator/generator.go:19-91 | the flattened result map holds every write's objects exactly when no replacing write hits a key in use |
| `Conservation.ConservationExact` | internal/generator/generator.go:19-91 | every block's manifests, one Namespace per namespace and one ServiceAccount per used declared pair come out, each once, exactly when account keys are distinct, cluster-scoped names are unique and no block is named like a cluster-scoped key |
| `GeneratedObjects.ObjectsAreDue` | internal/generator/generator.go:19-158 | of every kind, namespace and name the returned map has never more objects than the blocks call for, and exactly as many where nothing is lost: workloads, Services, autoscalers, routes, certificates, used and declared accounts, namespaces |
| `GeneratedObjects.RoutesAreDue` | internal/generator/deployment_v2.go:241-249 | a route is an HTTPRoute in gateway mode and an Ingress otherwise; where nothing is lost every block with a host has its one route, under the name written out |
| `GeneratedObjects.ResultKeys` | internal/generator/generator.go:19-91 | every object of the map stands under the key of its block |
| `GenerateTheorems.GeneratedCollisionFree` | internal/generator/generator.go:19-91 | what Generate returns for an accepted config in which no nameless block stands in has no two objects of one kind, namespace and name |
| `GenerateTheorems.CollisionsExact` | internal/generator/generator.go:19-91 | where nothing is lost, the returned map is free of collisions exactly when no nameless block stands in |
| `GenerateTheorems.NamelessCollides` | internal/parser/parser.go:470-533 | a config that the loader accepts and two objects of whose returned map are one |
| `GenerateTheorems.AcceptedLoses` | internal/generator/generator.go:19-91 | for an accepted config only clashing account keys and clashing block names lose objects |
| `GenerateTheorems.WorkloadLost` | internal/generator/generator.go:79-90 | an accepted config whose deployment is dropped: the returned map holds the cluster role of that key and nothing else |
| `RangeOrder.RangeOrderIrrelevant` | internal/generator/generator.go:31-41 | with distinct account keys the result is one map for every range order |
| `RangeOrder.RangeOrderMatters` | internal/generator/generator.go:31-41 | with two used declared accounts on one key, two orders that Go may range in, account by account, give different maps |
| `RangeOrder.RangeOrderExact` | internal/generator/generator.go:31-41 | all range orders give one map exactly when no two used declared accounts share a key |
| `RangeOrder.AccountsClash` | internal/generator/generator.go:31-41 | an accepted config for which they do not |
| `StableSort.SortedIsUnique` | internal/generator/yaml.go:160-168 | a stable sort has one result |
| `StableSort.TwoPassSort` | internal/generator/yaml.go:160-168 | sorting stably twice is sorting once by the composed order |
| `StableSort.SortInPlace` | internal/generator/yaml.go:233-239 | the in-place insertion loop gives the stable sort of the old contents |
| `Render.CollectedTies` | internal/generator/yaml.go:148-158 | documents that tie come from one result key's own list |
| `Render.RenderOrderUnique` | internal/generator/yaml.go:137-182 | the document order is the same for every enumeration of the result map |
| `Render.RenderAll` | internal/generator/yaml.go:137-182 | the entries collected in any range order and sorted in place are that order |
| `Render.LowerRanksRenderedFirst` | internal/generator/yaml.go:160-168 | in the rendered stream a document of a lower rank stands before one of a higher rank |
| `Render.RenderedAsListed` | internal/generator/yaml.go:19-50 | of two documents the first has a kind listed no later; within one place the smaller result key, and within that the smaller name, stands first |
| `Text.LexLessIs` | internal/generator/yaml.go:160-168 | Go's order on strings: the first difference decides, and a proper prefix is smaller |
| `Render.PrerequisitesRenderedFirst` | internal/generator/yaml.go:132-168 | so nothing that runs pods stands before anything it may refer to, CSI drivers included |
| `Render.ReversedKinds` | internal/generator/yaml.go:19-50 | all pairs of kinds that the render and the controller order in opposite ways |
| `Render.ApplyOrderOfRender` | flux-controller/internal/controller/kdefrelease_controller.go:375-414 | render sort and controller sort together are one sort by apply rank, kind rank, key and name |
| `Pipeline.CollectedIsTotal` | internal/generator/yaml.go:148-158 | the documents are the result map's objects, each once |
| `Pipeline.ApartObjects` | flux-controller/internal/controller/kdefrelease_controller.go:532-535 | the decoded objects differ for the API server exactly when the documents' identities do, cluster-scoped ones having no namespace |
| `Pipeline.DistinguishedIds` | flux-controller/internal/controller/kdefrelease_controller.go:532-535 | different objects have different inventory ids, whatever their names |
| `Pipeline.RetargetedApart` | flux-controller/internal/controller/kdefrelease_controller.go:146-150 | under a target namespace objects still differ exactly when no two share kind and name |
| `Pipeline.RenderHoldsAll` | flux-controller/internal/controller/kdefrelease_controller.go:328-348 | the rendered list holds every block's objects, namespaces and used accounts, each once and nothing else, exactly when nothing is lost |
| `Pipeline.RenderApartExact` | flux-controller/internal/controller/kdefrelease_controller.go:328-348 | its objects differ pairwise unless a nameless block stands in; where nothing is lost, exactly then |
| `Pipeline.RenderIsClean` | flux-controller/internal/controller/kdefrelease_controller.go:532-552 | a config without an underscore in any namespace or name it stands for renders to decodable objects only; where nothing is lost, no other config does |
| `Pipeline.RenderIsSound` | flux-controller/internal/controller/kdefrelease_controller.go:532-535 | and one without an underscore in a namespace to sound objects only, likewise |
| `Pipeline.RenderNames` | flux-controller/internal/controller/kdefrelease_controller.go:328-348 | kind, namespace and name of a rendered object are those some block stands for; where nothing is lost, all of these are rendered |
| `Pipeline.RenderedApis` | internal/generator/deployment_v2.go:135-140 | the API group and version of every rendered object, kind by kind |
| `Pipeline.RenderedRuns` | flux-controller/internal/controller/kdefrelease_controller.go:65-189 | over every run whose deliveries are renders of any configs under one target namespace, with failures anywhere, no attempt asks to delete an object of its own render, and, unless others delete objects, Ready means that all recorded objects are on the cluster |
| `Pipeline.RenderIsOne` | flux-controller/internal/controller/kdefrelease_controller.go:328-348 | with distinct account keys a config renders to one list, however Go ranges over its maps |
| `Pipeline.RenderProject` | flux-controller/internal/controller/kdefrelease_controller.go:328-348 | from the parsed files of a tree of projects to the list to be applied: a project that loads yields the sorted render of its accepted config, complete exactly when nothing is lost, of pairwise different objects when no nameless block stands in |
| `Annotations.FlattenAnnotations` | internal/parser/app.go:477-497 | the loop with its recursion overlays the fields' contributions in order |
| `Annotations.FlattenIs` | internal/parser/app.go:477-497 | a flattened key comes from a field that contributes it, with a value some field gives it |
| `Annotations.PieceIs` | internal/parser/app.go:477-497 | a line contributes its text under its name below the prefix, a block what its fields contribute below that name |
| `Annotations.LastFieldWins` | internal/parser/app.go:477-497 | the last field that contributes a key gives its value |
| `Annotations.GroupByPrefix` | internal/importer/mapper.go:509-527 | the two maps are the annotations without a slash and, per prefix, those below it |
| `Annotations.GroupedIff` | internal/importer/mapper.go:509-557 | an annotation goes into a group exactly when another one has its prefix |
| `Annotations.WriteGroupedAnnotations` | internal/importer/mapper.go:509-557 | the attribute written denotes shared prefixes as groups and everything else as lines, a group overriding a line of its name |
| `Annotations.RoundTripExact` | internal/importer/mapper.go:509-557 | flattening what was written gives the annotations back exactly when no line key is a shared prefix and the empty prefix is not shared, in whatever order the fields are iterated |
| `Annotations.EmptyPrefixIsLost` | internal/parser/app.go:480-485 | annotations that share the empty prefix lose their slash |
| `Annotations.LineUnderGroupIsLost` | internal/importer/mapper.go:540-555 | an annotation named like a shared prefix is overwritten |
| `Durations.DurationRoundTrip` | internal/importer/mapper.go:683-691 | parsing a printed duration gives it back, for every 64-bit number |
| `Durations.LargestUnit` | internal/importer/mapper.go:683-691 | a duration is printed in the largest unit that divides it |
| `Durations.SurroundedParses` | internal/generator/cronjob.go:160-181 | surrounding white space does not matter, an unknown unit reads as 0 |
| `Durations.SignsParse` | internal/generator/cronjob.go:160-181 | either sign or none is read, and what does not fit in 64 bits is not |
| `Durations.UnreadableIsZero` | internal/generator/cronjob.go:160-181 | what is no number with a unit reads as 0 |
| `Durations.UnitTextParses` | internal/generator/cronjob.go:160-181 | a number with a unit reads as the product wrapped to 64 bits |
| `Durations.LongDeadlineMisread` | internal/generator/cronjob.go:160-181 | hours are read exactly when the seconds fit |
| `Durations.DeadlineSurvives` | internal/generator/cronjob.go:138-143 | a starting deadline survives import and render exactly when absent or positive |
| `YamlStream.RenderStream` | internal/generator/yaml.go:114-130 | separators stand before every document but the first |
| `YamlStream.SplitLines` | internal/importer/reader.go:306-319 | the loop with its start index gives the pieces between newlines |
| `YamlStream.SplitYamlDocs` | internal/importer/reader.go:284-304 | the loop gives the runs of lines between separators |
| `YamlStream.SplitGivesDocuments` | internal/importer/reader.go:284-304 | from any bytes, every piece is a non-empty, newline-terminated document without a separator line |
| `YamlStream.StreamRoundTrip` | internal/importer/reader.go:284-304 | joined documents split into themselves exactly when each is such a document |
| `YamlStream.SplitKeepsLines` | internal/importer/reader.go:284-304 | splitting any bytes keeps every line but the separators, in order |
| `DeepMerging.DeepMerge` | internal/generator/yaml.go:216-231 | the recursive loop, in any range order, is the merge |
| `DeepMerging.PathLaw` | internal/generator/yaml.go:216-231 | at every path: the overlay shows through, hides the base below its non-mappings, and leaves the base alone elsewhere |
| `DeepMerging.MergeIsPathLaw` | internal/generator/yaml.go:216-231 | the merge is the only value with that law |
| `DeepMerging.NullIsStored` | internal/generator/yaml.go:216-231 | an overlay null is stored, not a deletion |
| `DeepMerging.EmptyIsIdentity` | internal/generator/yaml.go:216-231 | the empty mapping is neutral on both sides |
| `DeepMerging.OverlayTwiceIsOnce` | internal/generator/yaml.go:216-231 | merging an overlay a second time changes nothing |
| `DeepMerging.AssociativeIff` | internal/generator/yaml.go:216-231 | merging is associative exactly when, wherever a non-mapping stands between two mappings, the last covers the first |
| `DeepMerging.NullBetweenMappings` | internal/generator/yaml.go:216-231 | a null between two mappings shows the order of merging |
| `Layering.LastLayerWins` | internal/parser/variables.go:45-106 | a name is defined exactly when a layer defines it, and has its last definition |
| `Variables.LoadVariablesWalk` | internal/parser/variables.go:45-106 | the walk succeeds exactly when every file it reads parses; its layers are, per level, imports, at a leaf with a file the extra files, own |
| `Variables.DeepestDecides` | internal/parser/variables.go:45-106 | a name is declared as the deepest directory that mentions it does |
| `Variables.LevelDecides` | internal/parser/variables.go:45-106 | in one directory by its own file, else by the last extra file, else by the last import |
| `Variables.DeepestOwnDefaults` | internal/parser/variables.go:100-102 | the deepest directory with ingress defaults of its own decides |
| `Variables.FirstImportDefaults` | internal/parser/variables.go:79-81 | without one, the first import on the walk that has defaults decides |
| `Variables.FirstDefaultsIs` | internal/parser/variables.go:79-81 | of several imports the first that has defaults |
| `Variables.BuildEvalContext` | internal/parser/variables.go:384-447 | every value comes from its source, --set if it can be read, else --values, else the default; every error is reported once, and only where --set cannot be read or no source has the name; whatever the range order |
| `Variables.MergeOverrides` | internal/parser/parser.go:229-239 | root.kdef's set under the entry's under the command line's |
| `Variables.SourcesInOrder` | internal/parser/variables.go:384-471 | command line, entry, root.kdef, values file, default: which value comes out, and an error exactly when no source has one or the text is refused |
| `DirectoryWalk.DirsFromRootToLeaf` | internal/parser/images.go:45-76 | the directories from the root down, or the leaf alone |
| `DirectoryWalk.WalkIsDescent` | internal/parser/images.go:42-76 | the walk goes down one component a step, ends at the leaf, and starts at the root exactly when it is the leaf or an ancestor whose next component does not begin with two dots |
| `DirectoryWalk.ScanImages` | internal/parser/images.go:80-104 | a directory's images, later files over earlier ones, or failure when a file is broken |
| `DirectoryWalk.ScanImagesWalk` | internal/parser/images.go:22-40 | one overlay of all blocks on the walk, so the deepest definition counts |
| `DirectoryWalk.DeepestImage` | internal/parser/images.go:22-40 | an image has the value of the last file of the deepest directory that names it |
| `PodSpecs.FindVolumeByName` | internal/generator/podspec.go:126-140 | the first declaration of the name, pod level first |
| `PodSpecs.BuildPodSpec` | internal/generator/podspec.go:30-124 | the volumes, mounts and init mounts that the nested loops collect |
| `PodSpecs.ContainersAre` | internal/generator/podspec.go:30-34 | every container has its volumes' mounts in order, each with its path, sub-path and access |
| `PodSpecs.InitMountsAre` | internal/generator/podspec.go:57-61 | and an init container those of the declarations it lists |
| `PodSpecs.VolumesAreSourced` | internal/generator/podspec.go:68-78 | every volume has the first source its declaration sets, of secret, configmap, empty directory, claim, host path and CSI driver |
| `PodSpecs.VolumeIsFirstDeclaration` | internal/generator/podspec.go:68-78 | a name's pod volume is its first declaration's, absent exactly for undeclared names and for claims not declared at pod level |
| `PodSpecs.VolumeNamesDistinct` | internal/generator/podspec.go:68-78 | pod volume names are distinct exactly when the pod-level ones are |
| `PodSpecs.MountsAreBacked` | internal/generator/podspec.go:30-78 | every mount of every container and init container is of a declaration and names a pod volume or a claim |
| `PodSpecs.InitMountMatchesVolume` | internal/generator/podspec.go:57-61 | an init mount and the pod volume of its name come from one declaration, claim names declared at pod level included |
| `PodSpecs.InitMountsComplete` | internal/generator/podspec.go:57-61 | an init container gets all its mounts exactly when every name it lists is declared |
| `BlockContext.FindBlockContext` | internal/lsp/completion.go:93-117 | the loops with early return are the scan that counts a line's closing braces first |
| `BlockContext.ScanIsEnclosing` | internal/lsp/completion.go:93-117 | with lines that are balanced or unmatched on one side only, the scan finds the block of the forward stack at any depth |
| `BlockContext.OneSidedExactly` | internal/lsp/completion.go:93-117 | these lines are all the scan can read: for any other line there is a document on which it errs |

## Left out

- HCL parsing, cty evaluation, YAML marshalling and the regular expressions of `cleanYAML`: library behaviour; the model starts from parsed blocks and ends at objects.
- The attributes that generators copy from block to manifest: a manifest keeps its origin instead, so nothing is said about probes, resources or environment variables.
- `ApplyOverrides` (environment files) changes replica counts and resources only after the checks, and `validateReferences` only prints warnings; neither is part of this model.
- Texts of error messages: conflicts and load errors are datatype values with what the message would name.
- `raw` overlays: collision freedom is stated on the objects of `Generate`, before an overlay edits metadata; the merge itself is modelled apart from it.
- Namespaced objects without a namespace: whether such a call fails is left to the replies, and the empty namespace is a place of its own.
- The source, fetch, values and render stages of the controller, the API server's defaulting, and garbage collection: each stage succeeds or fails, each call is done, lost or failed.
- Finalizers and deletion of the release object itself: the source has none.
- Unicode tables: which characters Go's `%q` prints as they are is a parameter of the duplicate check, and the conversion of a `--set` text to number or bool is a parameter of the variable evaluation.
- The inline pod spec of `GenerateDeploymentV2`: the volume rules are those of `buildPodSpec` without claims, and it is not modelled a second time.
- String escapes and template sequences in written annotations: an entry holds the text that the quoted literal denotes, and a key written twice keeps its last value, as in HCL's object constructor.
- StableSort.SortInPlace: the loop is the one of `sortStrings`, which has no callers; it stands for `sort.SliceStable` and `sort.Strings`, whose results are unique.
- ReleaseSafety.RunIsSafe: the deletion half is stated for renders whose namespaces, groups and kinds hold no underscore, which API servers refuse; `Pipeline.RenderIsSound` says which configs those are. Deletions of kinds with an underscore, which no server has, are not said to be of held objects: they come from misread entries (`ResourceIds.RefReadAs`).
- ReleaseRecovery.RetryRecovers: the same restriction; what is held and no longer wanted must be readable, because an unreadable entry is never deleted (`ReleaseRecovery.UndeletedIff`), and a retry that commits must not have failed to delete, because a failed delete is forgotten (`ReleaseRecovery.FailedDeleteOrphans`).
- RootProjects.Load: the variable walk and the evaluation of the files are not part of it; every directory of the tree enters as the blocks its files evaluate to in their place, or as broken.
- kubectl, kubeseal, HTTP, tar, the file system, the command line, the rest of the language server and the importer's lossy workload blocks.
