# The OpenFGA provider, modelled and proved in Dafny

The provider keeps an OpenFGA tuple store in step with Kubernetes objects. PolicyBindings become permission tuples,
owner references become parent tuples, ProtectedResources become an authorization model, and a webhook answers access
requests from the three together. This project models that logic and proves what it is for.

Four parts, over one vocabulary of objects, users and tuples (`Names`):

1. **The hold.** No tuple outlives the Project or Organization it names, although finalizers clear tuples outside the
   lock, reads may be stale, and any number of reconciles run at once; and a finalizer can always finish (`Hold`,
   `HoldProtocol`, `HoldSafety`, `HoldProgress`, `HoldCounterexample`, `ObjectTuples`, `TupleDeletion`, `ParentSync`).
   `HoldProtocol` is a transition system: every API read, API update, tuple read and tuple write is a step of its own.
   `HoldAlone` ties it to the controllers: run by itself, a reconcile's steps come to what its method is proved to do.
2. **Shared tuples.** Bindings that share tuples read and then write without atomicity, and exactly when they still
   converge on what the live bindings want (`PolicyReconciler`, `BindingConvergence`, `SharedUserCounterexample`).
3. **Graphs and a compiler.** Role inheritance and its invalidation (`Roles`); the resource hierarchy, unrolled with
   cycle detection and folded with a memo (`ResourceGraph`, `Hierarchy`, `Snapshots`); the authorization model built
   from it, its merge, its meaning, and its agreement with what bindings write (`AuthorizationModel`, `ModelMerge`,
   `ModelMeaning`, `GraphMeaning`, `ModelTransition`).
4. **The request.** The permission parser and printer (`Permissions`), the registration index
   (`ProtectedResourceCache`), the webhook's checks (`Authorizer`), and what an allowed request means in terms of
   bindings and parents alone (`EndToEnd`, `ScopeCounterexample`).

Loops, recursive methods with shared mutable state, and objects that update their fields are methods and classes, each
proved against a function or a predicate whose own properties are then proved; what only computes a value is a function.
`dafny verify dfyconfig.toml` checks everything.

## Four properties that do not hold as one would wish

* **Access does not always last through the drain.** A finalizer's clear can take a tuple that names a live object in two
  ways. It clears by name: if its cached read is of an earlier object of that name, already gone, it deletes the tuples of
  the live object that has the name now (`HoldCounterexample.AStaleClearCutsAccess`). And a parent tuple names two
  objects: the finalizer of a drained Organization deletes the one that names its live Project, as it must
  (`HoldCounterexample.AFreshClearCutsParentTuple`). There is no third way: `HoldSafety.ClearCutsAccessIff` states it as
  an if-and-only-if over every run and every Project and Organization, and `HoldSafety.FreshClearCutsOnlyParents` shows
  that a finalizer whose read is of the stored object is never in the first case. Safety (no tuple outlives its object)
  is not affected.
* **A grant above the scope of a request may not count.** A scope's check fails when the scope's type has no relation
  for the permission, even if an ancestor of the scope grants it (`ScopeCounterexample.GrantAboveScopeIsLost`).
  `EndToEnd.AllowedIffGranted` is the exact statement; `EndToEnd.AllowedIffGrantedSomewhere` is the plain one, for
  scopes whose type carries the permission.
* **Bindings that share tuples do not always converge.** Siblings are matched by kind and name, tuples by OpenFGA user. A
  User named `x` and a ServiceAccount with the UID `x` share an OpenFGA user without being siblings, and one binding's
  deletion then takes a tuple the other still wants (`SharedUserCounterexample.WantedTupleIsLost`).
  `BindingConvergence.ConvergesIffCovered` is the exact condition, on the bindings alone.
* **A live owner's parent tuple does not always stay.** When two owner references name one Organization, one made for it
  and one for an object that had the name before, each reconcile that finds the tuple deletes it and the next one writes
  it again (`ParentSync.TupleFlaps`). `ParentSync.EndsAsItShouldIff` is the exact condition, on the references and the
  stored objects; `ParentSync.Hierarchy.SynchronizeHierarchy` is exact for every list of references.

Where the source's comments and code differ, the model follows the code: the comment above `getTupleUser`
(`internal/openfga/policy_reconciler.go:561-563`) says a ServiceAccount is named by its resource name, the code uses its
UID.

## Environment rules

An object with a deletion timestamp stays stored while a finalizer is on it, and takes no new one. An Update with a stale
resourceVersion fails. Live reads see the stored object; cached reads may be stale but never go back. One worker
reconciles a key at a time, and a leader starts with a synced cache and no reconcile in flight. A tuple Write has
happened when it returns, or never happens, except in the deletion loop, where a timed-out Write may have removed any
part of its batch. Nobody else removes our finalizer. Parent tuples are only written by the Project controller.

## Model

| member | source | states |
|---|---|---|
| Names.ObjectNameInjective | internal/openfga/index.go:24-26 | two Kubernetes objects share a tuple name, and so a lock key, only if they are the same object |
| Names.CutOfRender | internal/openfga/model_transition.go:83 | cutting a rendered object at its first colon gives back its type and id |
| Names.CutOfType | internal/openfga/index.go:24-26 | for a group without a slash, the first slash of a type parts its group from its kind |
| Hold.HeldTypeIffHeldKind | internal/controller/target_hold.go:112-115 | for a group without a slash, the OpenFGA type says exactly what the group and kind say about being held |
| HoldSafety.NoTupleOutlivesItsObject | internal/controller/object_tuples.go:99-118 | in every state of every run of the interleaved protocol, each tuple naming a Project or Organization, as object or as parent, names one that exists under the UID its writer checked and that our finalizer holds |
| HoldSafety.InvStep | internal/controller/target_hold.go:31-51 | every step of every actor (binding writer, parent writer, both finalizers, Milo, users) keeps the invariant behind that safety |
| HoldSafety.AddsUnderLock | internal/controller/policybinding_controller.go:531-561 | a step that adds a tuple naming a held object runs inside that object's lock with the hold checked, or is that Project's own worker |
| HoldSafety.WritesAreAdmitted | internal/controller/target_hold.go:75-106 | in every run, a binding or a Project comes to a write that adds tuples only when the object it has locked is at that moment live, under the UID checked, and carries our finalizer |
| HoldSafety.GuardAdmits | internal/controller/policybinding_controller.go:531-561 | a binding that would add tuples passes its guard exactly if the live read shows its target under the binding's UID and not being deleted |
| HoldSafety.OwnerAdmits | internal/controller/resourceownerhierarchy_controller.go:200-236 | what a Project's reconcile makes of an owner: held or to be held if live, left alone while being deleted, its tuple deleted if replaced or gone |
| HoldSafety.FinalizeOwn | internal/controller/resourceownerhierarchy_controller.go:440-446 | a finalizer's steps keep what it has read true, so a release under the lock finds no tuple left |
| HoldSafety.QueriesFindAll | internal/controller/object_tuples.go:26-46 | with parent types declared, the finalizer's reads find every tuple that names the object |
| HoldSafety.ClearCutsAccessIff | internal/controller/resourceownerhierarchy_controller.go:123-134 | over every run and for every held object: a clear deletes a tuple that names an object in use exactly when another object has taken the finalizer's name since its cached read, or the tuple is a parent tuple whose other end is in use |
| HoldSafety.FreshClearCutsOnlyParents | internal/controller/organization_controller.go:36-44 | a finalizer whose read is of the stored object takes, for as long as it runs, nothing from an object in use but parent tuples that join the two |
| HoldCounterexample.AStaleClearCutsAccess | internal/controller/target_hold.go:88-96 | a concrete run in which a stale finalizer deletes a live object's tuple |
| HoldCounterexample.AFreshClearCutsParentTuple | internal/controller/object_tuples.go:26-46 | a concrete run in which a fresh finalizer of a drained Organization deletes the parent tuple that names a live Project |
| HoldProgress.FinalizerCanFinish | internal/controller/object_tuples.go:99-118 | from every reachable state in which an object is being deleted, drained and held by our finalizer, a run in which the cache catches up and one finalizer takes its steps, while at most two reconciles give up, takes our finalizer and no other off, removes exactly the tuples that name the object, and changes no other object |
| HoldAlone.BindingWrites | internal/controller/policybinding_controller.go:531-561 | by itself, a binding that would add tuples makes its write exactly if its target is live, and then with our finalizer on it; one that only removes always makes it |
| HoldAlone.WriteIsRetried | internal/openfga/model_transition.go:20-67 | under the lock, a refused write is tried once more; refused twice, it changes nothing |
| HoldAlone.LiveIsHeld | internal/controller/resourceownerhierarchy_controller.go:140-153 | by itself, the reconcile of a live object that lacks our finalizer adds it and does nothing else |
| HoldAlone.ProjectSyncs | internal/controller/resourceownerhierarchy_controller.go:155-221 | by itself, the steps of a Project's reconcile leave what SynchronizeHierarchy leaves when every call answers |
| HoldSafety.NoReconcileHoldsTwoLocks | internal/controller/target_hold.go:31-51 | in every reachable state, for every hash of objects to locks, no reconcile holds two locks or waits while it holds one |
| HoldSafety.WaiterGetsItsLock | internal/controller/object_tuples.go:104-118 | no deadlock: a bounded number of the holder's own steps, all possible, frees the lock that a reconcile waits for |
| ObjectTuples.ChildTypes | internal/controller/object_tuples.go:52-74 | exactly the types that declare the type as a parent, each once, never the type itself |
| ObjectTuples.NamedTuples.Naming | internal/controller/object_tuples.go:26-46 | every tuple that names the object, none twice, when tuples with an object as user are on declared child types; fails exactly when a read does |
| ObjectTuples.NamedTuples.Clear | internal/controller/object_tuples.go:76-85 | a clear that succeeds leaves no tuple naming the object; it fails exactly when a read or the deletion does; no clear touches another tuple |
| ObjectTuples.NamedTuples.Remaining | internal/controller/object_tuples.go:87-97 | passes exactly when the reads answer and no tuple names the object |
| TupleDeletion.TupleStore.DeleteTuples | internal/openfga/tuples.go:28-51 | each write takes up after the acknowledged tuples, with at most 100 and half as many after a timeout; the call fails exactly if an answer is refused, late, or a timeout on a single tuple, or if the context ends with tuples left; success leaves exactly the old store without the requested tuples, a failure removes only requested ones and the acknowledged prefix is gone; at most six timeouts are retried |
| ParentSync.Hierarchy.OwnerHold | internal/controller/resourceownerhierarchy_controller.go:225-236 | missing, replaced, being deleted or held, by what is stored; our finalizer is added exactly when a live owner under that UID lacks it; fails exactly when the read, or an Update that is needed, fails |
| ParentSync.Hierarchy.ComputeTupleDifferences | internal/controller/resourceownerhierarchy_controller.go:360-380 | writes the desired tuples of users that have none, deletes the tuples of users that are not desired |
| ParentSync.Hierarchy.SyncParent | internal/controller/resourceownerhierarchy_controller.go:200-221 | one owner's tuple is written, unless it was read before, if the owner is stored under the reference's UID and not being deleted, left if it is being deleted, removed if it was read before and the owner is replaced or gone; fails exactly when a call that is needed does, and then leaves the tuples as they were |
| ParentSync.Hierarchy.SynchronizeHierarchy | internal/controller/resourceownerhierarchy_controller.go:160-185 | for every list of owner references: one reconcile leaves exactly the parent tuples of the owning Organizations that are stored under a reference's UID and not being deleted, and those already there for owners being deleted, less those that were there and that another reference finds replaced or gone; new tuples name owners that carry our finalizer, and no other object changes; it fails exactly when a call that is needed does, and then each parent tuple is as it was or as it would have ended |
| ParentSync.SyncedMeans | internal/controller/resourceownerhierarchy_controller.go:174-183 | each owner decides its own parent tuple and no other, in whatever order the references come: a tuple that was read stays unless a reference finds its object replaced or gone, another comes if a reference finds its object live |
| ParentSync.EndsAsItShouldIff | internal/controller/resourceownerhierarchy_controller.go:174-221 | the parent tuples end as the owners' states say exactly if no Organization whose tuple is there is named by two references, one to the stored object and one to another that had the name |
| ParentSync.TupleFlaps | internal/controller/resourceownerhierarchy_controller.go:200-221 | two such references: a reconcile that finds the live owner's tuple removes it, and one that does not writes it |
| PolicyReconciler.BuildPermissionTuples | internal/openfga/policy_reconciler.go:338-382 | the tuples of every subject and writable permission, or none if a subject has no OpenFGA user |
| PolicyReconciler.WantsIff | internal/openfga/policy_reconciler.go:338-382 | a binding has its tuples exactly if its Role can be read and every subject has a user; it wants a tuple exactly when that is so, it covers the user, targets the object, and its Role holds, effectively or for want of anything effective by itself, a writable permission of that relation, for either flag |
| PolicyReconciler.UserMeans | internal/openfga/policy_reconciler.go:559-597 | the OpenFGA user of a subject: a User by name, a ServiceAccount and a Group by UID, a system group by its escaped name, and none without the UID that is needed |
| PolicyReconciler.SiblingsWantIff | internal/openfga/policy_reconciler.go:243-300 | what the siblings want is what some other live binding with the same target and a common subject wants, by its own Role |
| PolicyReconciler.DiffTuples | internal/openfga/policy_reconciler.go:501-530 | what is wanted and missing, and what is there and not wanted |
| PolicyReconciler.SiblingDesiredTuples | internal/openfga/policy_reconciler.go:243-300 | what the other live bindings with a common subject still want of the target, or a failure if one names a Role without a namespace |
| PolicyReconciler.PolicyStore.GetExistingTuples | internal/openfga/policy_reconciler.go:439-468 | exactly the stored tuples of the binding's subjects on the target |
| PolicyReconciler.PolicyStore.DeletePolicy | internal/openfga/policy_reconciler.go:62-121 | removes the tuples of the binding's subjects on its target that no sibling wants, and nothing else; succeeds exactly when the calls it needs do |
| PolicyReconciler.PolicyStore.ReconcilePolicy | internal/openfga/policy_reconciler.go:128-235 | leaves what the binding wants and what siblings want of what was there; tuples are added only if the guard lets them, TargetNotHeld is the answer exactly if something is missing and the target is not held, what only goes goes whatever the guard says, and the call succeeds exactly when the calls it needs do; a failure changes nothing but for a binding whose Role is gone, which is revoked with the flag on |
| BindingConvergence.WrittenAlone | internal/openfga/policy_reconciler.go:157-210 | when no other write comes between, the interleaved machine's read and write steps do what one call does |
| BindingConvergence.WantedByOwnOrSibling | internal/openfga/policy_reconciler.go:243-300 | in a covered cluster, a managed tuple that any live binding wants is the binding's own or a sibling's |
| BindingConvergence.InvStep | internal/openfga/policy_reconciler.go:190-197 | in a covered cluster, no interleaved write takes a wanted tuple away or adds an unwanted one |
| BindingConvergence.ConvergesIffCovered | internal/openfga/policy_reconciler.go:62-210 | every complete run, in any interleaving and from any store, ends with exactly what the live bindings want for the mentioned users and every other tuple untouched, if and only if whatever a live binding wants of another's subjects and target is wanted by that other or a sibling of it |
| BindingConvergence.Converges | internal/openfga/policy_reconciler.go:62-210 | one such run: once each live binding has been reconciled and each deleting one deleted, the store has converged |
| BindingConvergence.UncoveredIsLost | internal/openfga/policy_reconciler.go:243-300 | where that fails, a complete run from any store loses the wanted tuple |
| BindingConvergence.OneNameIsCovered | internal/openfga/policy_reconciler.go:258-283 | one kind and name for each OpenFGA user is enough |
| SharedUserCounterexample.WantedTupleIsLost | internal/openfga/policy_reconciler.go:258-283 | a concrete cluster of two bindings in which it fails: a User and a ServiceAccount share an OpenFGA user |
| Roles.GetAllEffectivePermissions | internal/controller/role_controller.go:116-170 | inner calls share the visited map: each returns exactly what the roles it visited first hold and miss, or fails because of a read below it |
| Roles.EffectivePermissions | internal/controller/role_controller.go:105-170 | the outer call returns exactly the permissions of all reachable roles and exactly the reachable dangling references, on cyclic and diamond graphs; it fails exactly when a read of an inherited role fails for another reason than its absence |
| Roles.DedupeUnresolved | internal/controller/role_controller.go:175-195 | each reference once, sorted by namespace and name |
| Roles.RolesDependentOnRole | internal/controller/role_inheritance.go:22-57 | exactly the changed role and all roles that reach it |
| Roles.EnqueueRequestsForInheritedRoleChange | internal/controller/role_controller.go:503-529 | exactly the other roles that reach the changed one |
| Roles.InvalidationIsComplete | internal/controller/role_inheritance.go:10-57 | if two stores differ at one role only, every role whose effective permissions or dangling references differ reaches it, and both stores name the same dependents |
| ResourceGraph.Gather | internal/openfga/resources.go:42-132 | the specs by type, the sorted children of each type and the sorted parentless types, exactly as the registrations declare them |
| ResourceGraph.SpecIsLast | internal/openfga/resources.go:42-132 | of several registrations of a type the last one gives its spec; those being deleted, or without a service or a kind, give none |
| ResourceGraph.GetResourceGraphNode | internal/openfga/resources.go:159-228 | the recursive build with its path of visited types is the unrolling, the first error included |
| ResourceGraph.NodeFailsIffCycle | internal/openfga/resources.go:165-171 | a type's tree cannot be built exactly when a cycle is reachable from it |
| ResourceGraph.GraphFailsIffCycle | internal/openfga/resources.go:42-156 | building the graph terminates, and fails exactly when a cycle is reachable from a parentless type |
| Hierarchy.CalculatePermissionsForNode | internal/openfga/authorization_model_reconciler.go:557-586 | the fold with the shared memo returns each node's own answer, and fills the memo for exactly the types below it |
| Hierarchy.CalculateHierarchicalPermissions | internal/openfga/authorization_model_reconciler.go:550-554 | the memo ends as the hierarchy of the graph |
| Hierarchy.NodeUnique | internal/openfga/resources.go:173-228 | a type has one tree, whatever path led to it, so one memo entry serves every occurrence |
| Hierarchy.TreeMeans | internal/openfga/resources.go:173-228 | a type's tree holds exactly its descendants and their permissions |
| Hierarchy.HierarchyMeans | internal/openfga/authorization_model_reconciler.go:546-586 | for every type reachable from a parentless one: sorted, each once, exactly the permissions of the type and its descendants |
| Snapshots.GraphsAgree | internal/openfga/policy_reconciler.go:402-413 | registrations describe one graph, however they are listed |
| Snapshots.OneOrder | internal/openfga/authorization_model_reconciler.go:284-293 | the builder's sort puts every listing of distinctly named registrations in one order |
| AuthorizationModel.GetResourceTypeDefinition | internal/openfga/authorization_model_reconciler.go:356-426 | a relation for each permission, held directly or through a parent, and the parent relation when parents are declared |
| AuthorizationModel.GetRootTypeDefinition | internal/openfga/authorization_model_reconciler.go:500-532 | Root carries every given permission, held directly only |
| AuthorizationModel.GetResourceTypeDefinitions | internal/openfga/authorization_model_reconciler.go:605-624 | the walk over the unrolled tree defines each type in it once |
| AuthorizationModel.CreateExpectedAuthorizationModel | internal/openfga/authorization_model_reconciler.go:279-340 | users and groups only for no registrations, else the model of their graph, and a failure exactly when the graph fails |
| AuthorizationModel.ModelDefines | internal/openfga/authorization_model_reconciler.go:316-339 | the model defines exactly the types of the graph and the three system types, each once |
| ModelMerge.MergeModels | internal/openfga/authorization_model_reconciler.go:121-165 | the loops that keep hand-written types and add the missing expected ones compute the merge |
| ModelMerge.HandWrittenSurvive | internal/openfga/authorization_model_reconciler.go:121-156 | hand-written slashless definitions and conditions survive every merge, in order and unchanged, and no others do |
| ModelMerge.MergeIdempotent | internal/openfga/authorization_model_reconciler.go:121-165 | merging the same expected model again changes nothing |
| ModelMerge.MergeServes | internal/openfga/authorization_model_reconciler.go:158-165 | for every type with a slash the merged model defines what the expected one does |
| ModelMerge.ExpectedIsOrderless | internal/openfga/authorization_model_reconciler.go:279-340 | any permutation of distinctly named registrations gives the same expected model |
| ModelMerge.EqualIffSame | internal/openfga/authorization_model_reconciler.go:51-106 | the comparison before a write finds two models equal exactly when they have one schema, the same conditions, and the same types with the same relations, usersets and, in any order, user types |
| ModelMerge.SettledServes | internal/openfga/authorization_model_reconciler.go:108-206 | what a reconcile leaves, written or found up to date, defines every type with a slash exactly as the expected model, and every other type as before |
| ModelMerge.SecondReconcileWritesNothing | internal/openfga/authorization_model_reconciler.go:167-179 | after one reconcile the comparison before a second one finds nothing to write, whatever the listing order |
| ModelMerge.ModelStore.ReconcileAuthorizationModel | internal/openfga/authorization_model_reconciler.go:108-206 | writes exactly when the merged model differs from the newest; unless it fails, the stored model defines every type with a slash as the expected one and the others as before; a failed read, build or write changes nothing, and it fails on the publication exactly if there is an ID to publish; on success the published ID is the newest model's |
| ModelMeaning.CheckMeans | internal/openfga/authorization_model_reconciler.go:374-423 | in any model whose permissions flow from parents of lower rank, evaluating the usersets on a conforming store is plain reachability over parent tuples and group members, for every depth at or above the rank |
| ModelMeaning.AssigneeMeans | internal/openfga/authorization_model_reconciler.go:452-488 | the assignees of a group are its members |
| ModelMeaning.GrantedVia | internal/openfga/authorization_model_reconciler.go:374-423 | a permission held at or above an object is held on it or at or above one of its parents |
| GraphMeaning.EvaluationIsReachability | internal/openfga/authorization_model_reconciler.go:279-426 | the compiled model preserves meaning: a check succeeds exactly when the object's type carries the relation and the user or a group of the user's holds it on the object or an ancestor; evaluation is bounded by the graph |
| GraphMeaning.CarriedUp | internal/openfga/authorization_model_reconciler.go:546-586 | each permission of a type is also on each of its parents in the graph and on Root |
| GraphMeaning.RankFalls | internal/openfga/resources.go:165-171 | because the type graph is acyclic, a parent has fewer ancestors than its child |
| GraphMeaning.MergedIsInForce | internal/openfga/authorization_model_reconciler.go:121-165 | whatever the store's model was, the merge puts the graph's model in force |
| GraphMeaning.ServedIsInForce | internal/openfga/authorization_model_reconciler.go:108-206 | so does whatever a reconcile leaves in the store, also when it found nothing to write: EvaluationIsReachability holds of the stored model |
| ModelTransition.ModelSupportsTupleWrites | internal/openfga/model_transition.go:69-92 | true exactly when there is a model that defines every tuple's relation on its object's type |
| ModelTransition.TransitionWriter.WriteWithModelTransitionRetry | internal/openfga/model_transition.go:20-67 | at most one retry, only for refused additions that the newest model supports; the store changes only if a write was accepted, the cached model ID only if it is still the failed one |
| ModelTransition.GetHierarchicalPermissionsForSelector | internal/openfga/policy_reconciler.go:388-434 | the permissions of the target's type and those below it, or of all types when the graph does not have it |
| ModelTransition.WritesConform | internal/openfga/policy_reconciler.go:338-382 | every tuple a binding wants on a type of the model conforms to the model of the registrations it read, users included |
| ModelTransition.ParentTupleConforms | internal/controller/resourceownerhierarchy_controller.go:262-317 | a Project's parent tuples conform when Projects declare Organizations as parents |
| ModelTransition.MemberTupleConforms | internal/openfga/authorization_model_reconciler.go:452-488 | the member tuples of groups conform |
| ModelTransition.WriterAndModelAgree | internal/openfga/policy_reconciler.go:338-434 | from one snapshot, listed in either order, whatever a binding of a kind, of Root or of an in-graph type writes is supported by the merged model |
| ModelTransition.OutsideGraphIsRefused | internal/openfga/model_transition.go:82-91 | a tuple on a type outside the graph is never supported |
| Permissions.ParsedPrintsBack | internal/permissions/permissions.go:18-53 | whatever parses is well formed and prints back to itself |
| Permissions.PrintedParsesBack | internal/permissions/permissions.go:18-53 | a permission parses back to itself exactly when it is well formed |
| Permissions.Defined | internal/permissions/permissions.go:55-78 | the verb is among those of the resource, or of the first subresource of that name when the flag is on |
| Permissions.Enumerate | internal/permissions/permissions.go:80-95 | the loops list the registration's permissions in order |
| Permissions.DefinedIffEnumerated | internal/permissions/permissions.go:55-95 | for either flag, a string parses to a defined permission exactly when it is enumerated |
| ProtectedResourceCache.Cache.OnAdd | internal/webhook/protectedresource_cache.go:41-47 | an added registration is put under its key; anything else is ignored |
| ProtectedResourceCache.Cache.OnUpdate | internal/webhook/protectedresource_cache.go:48-57 | the old key goes when it differs, the new state takes its key |
| ProtectedResourceCache.Cache.OnDelete | internal/webhook/protectedresource_cache.go:58-78 | the registration's key goes, also from a tombstone |
| ProtectedResourceCache.Cache.GetByAPIGroupAndResource | internal/webhook/protectedresource_cache.go:98-104 | lookup agrees with a scan of the live registrations |
| ProtectedResourceCache.IndexMirrorsLive | internal/webhook/protectedresource_cache.go:40-130 | after any event sequence in which live registrations never share a key, the index is exactly the map from key to live registration |
| ProtectedResourceCache.SharedKeyLosesLive | internal/webhook/protectedresource_cache.go:117-126 | with a shared key, deleting one registration drops the other from the index |
| Authorizer.ValidatePermission | internal/webhook/subjectaccessreview_authorizer.go:622-656 | the cached registration declares the request's verb, by the rule of either flag: with the flag on for the request's group and resource, among the verbs of its subresource if it is for one, and not while the registration is being deleted |
| Authorizer.RequestedExactly | internal/webhook/subjectaccessreview_authorizer.go:737-748 | with the flag on, the permission of a request parses to its group, resource, subresource and verb, so requests that differ in one never share it |
| Authorizer.BuildChecks | internal/webhook/subjectaccessreview_authorizer.go:247-290 | exactly these are checked, for the requester's OpenFGA user and the relation of the permission: the kind's Root, the instance the request names, the scope and the Root of its kind; leaving out a scope named as the primary object loses no check |
| Authorizer.ExecuteBatchCheck | internal/webhook/subjectaccessreview_authorizer.go:506-582 | allows exactly when OpenFGA answers and allows some check |
| Authorizer.Authorize | internal/webhook/subjectaccessreview_authorizer.go:153-327 | allows exactly a valid request for a registered permission for which OpenFGA allows the requester's check on some candidate; no opinion exactly when the batch fails, an error in exactly the stated cases |
| Authorizer.InPlaceConforms | internal/openfga/policy_reconciler.go:338-382 | the store behind the end-to-end statement conforms to the model: what bindings wrote does because of what they write, the rest because OpenFGA admitted it |
| Authorizer.ReconciledIsConverged | internal/openfga/policy_reconciler.go:62-210 | reconciling every binding of a covered cluster once, with every live target a kind or an in-graph type, leaves a store whose permission tuples are exactly what the live bindings want |
| Authorizer.WantedGives | internal/openfga/policy_reconciler.go:338-382 | with an injective hash, the wanted tuples of a permission on an object are the grants of live bindings there, and back |
| EndToEnd.CheckIff | internal/webhook/subjectaccessreview_authorizer.go:473-499 | one check succeeds exactly when the object's type carries the permission and a live binding gives it at or above the object |
| EndToEnd.AllowedIffGranted | internal/webhook/subjectaccessreview_authorizer.go:153-327 | end to end: an allowed request is exactly one with a candidate whose type carries the permission and a live binding at or above it that covers the requester, holds the permission and may give it there |
| EndToEnd.AllowedIffGrantedSomewhere | internal/webhook/subjectaccessreview_authorizer.go:247-296 | when the scope's type carries the permission, the candidates' types need not be asked for |
| ScopeCounterexample.EverythingInPlace | internal/webhook/subjectaccessreview_authorizer.go:153-327 | the assumptions of the end-to-end statement can be met together: a cluster, model and store that meet them |
| ScopeCounterexample.GrantAboveScopeIsLost | internal/webhook/subjectaccessreview_authorizer.go:258-290 | a concrete cluster, model, store and request: a live binding above the scope grants, and the request is denied |

## Left out

- gRPC and Kubernetes clients, informers, workqueues, leader election, wiring, status conditions, events, metrics and HTTP handling: kept only as the environment rules above.
- OpenFGA itself: a set of tuples, atomic writes, paged reads as sets, and the meaning of direct, computed, tuple-to-userset and union usersets. Tuple conditions, wildcards and OpenFGA's own depth limit are not modelled.
- The organization namespace check, discovery, the model-ID watcher and ConfigMap, the rate limiter, GroupMembership and SystemGroup controllers: inputs or absent, only easy properties.
- The FNV hash is an abstract function; injectivity, and that it never yields `parent`, `member` or `assignee`, are assumed where a statement says so.
- Server limits on one binding's write, and writes that commit after the client gave up.
- HoldSafety.NoTupleOutlivesItsObject: revocations that a binding makes without a lock, and other writers, are one step that adds no tuple naming a Project or Organization; at the start, the only tuples with a Project or Organization as user are parent tuples; UIDs are numbers, finalizers are constructors.
- HoldSafety.WaiterGetsItsLock: says the holder can always unlock, not that a fair scheduler picks this waiter next.
- BindingConvergence.ConvergesIffCovered: bindings, roles and registrations are fixed during the run; targets, subjects and the Roles of live bindings resolve; a held target never refuses, and a failed write is a step that changes nothing. A failing graph build, which makes every reconcile fail, is not a step.
- PolicyReconciler.PolicyStore.ReconcilePolicy: the reads of one call all answer or the call fails at the first, with nothing changed either way; which tuples a paged read returns first is not modelled.
- ModelMerge.SecondReconcileWritesNothing: the comparison ignores the order of types and of a relation's user types, as the source does; the source also ignores the order inside a union, here unions are compared as written. Module names and source-file annotations of type definitions are not modelled.
- AuthorizationModel.CreateExpectedAuthorizationModel: Go's sort is modelled by an insertion sort; for distinctly named registrations every sort gives this order.
- ModelMerge.ExpectedIsOrderless: two registrations of one type with different specs are settled by the builder's order, the later one winning.
- Snapshots.GraphsAgree: assumes that registrations of one type agree on its spec, unless the two listings are equal; the policy reconciler does not sort its list.
- GraphMeaning.EvaluationIsReachability: assumes no type is its own parent and every declared parent is in the graph or is Root; otherwise OpenFGA refuses the model or follows parents without end.
- ProtectedResourceCache.IndexMirrorsLive: the mutex is not modelled, handlers run one at a time; a tombstone without its object is never delivered.
- EndToEnd.AllowedIffGranted: for the flag on; OpenFGA answers from the newest model and the stored tuples, without its query cache; types written by hand define no permission's relation.
- EndToEnd.AllowedIffGrantedSomewhere: the registration's type has no colon.
- ParentSync.Hierarchy.SynchronizeHierarchy: an owner named under another version of its group is read as the same object; whether OpenFGA accepts a repeated delete or write is its reply.
- HoldProgress.FinalizerCanFinish: says that some run finishes, not that a fair scheduler always gets there.
- TupleDeletion.TupleStore.DeleteTuples: OpenFGA's answers and the end of the context are given as functions of the write's number.
