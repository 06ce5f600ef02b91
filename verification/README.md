# NFS provisioner operator: a verified model

The operator keeps one set of cluster objects per `NFSProvisioner` resource. Each reconcile pass reads the
resource, validates its spec, lets seven managers get or create their objects in order (the security context
constraints, the claim, the service account, four RBAC objects, the deployment, the service, the storage class) and
then adds its finalizer or, for a resource under deletion, deletes the two cluster roles and removes the finalizer.
It keeps no state between passes: whatever failed or crashed is left to the next pass, which starts again from what
the cluster then holds.

This project models that protocol call by call and proves what it keeps over whole runs: any store, any number of
resources, any calls that fail before or after their effect, crashes between any two calls, and other writers.
Two smaller parts of the repository, the generated deep copies and the in-place map builder, are modelled on the heap.

## Layout

| file | content |
|---|---|
| `Objects.dfy` | the resource, the cluster objects, validation, the builders, the lookup keys |
| `Matching.dfy` | the substring test on the user list and its exact meaning |
| `Protocol.dfy` | the store with versions, API calls with faults, the pass as a machine, runs and invariants of runs |
| `Convergence.dfy` | the closed form of a fault-free pass, and the proof that the machine computes it |
| `Faults.dfy` | fault confluence, idempotence, completion of deletions |
| `Leaks.dfy` | what failures that go unnoticed, and relapsed deletions, leave behind, and exactly when |
| `Results.dfy` | what the result of a pass means under any faults, and the order of creations |
| `Progress.dfy` | the amount of work of all passes together, and which attempts can fail |
| `Settling.dfy` | many resources: one round of passes serves all, the next writes nothing, only cleanups take something away |
| `Tenants.dfy` | the user list over runs with many resources |
| `Commutation.dfy` | passes for two namespaces in either order |
| `Orders.dfy` | rounds over any number of independent resources in any two orders |
| `Finalization.dfy` | what a resource leaves behind when it goes |
| `Frame.dfy` | what the operator may change, call by call and over runs |
| `Integrity.dfy` | references between objects in every intermediate state |
| `Ownership.dfy` | labels, kinds and owners of what is stored |
| `Departures.dfy` | what the passes for a resource leave behind, over its life and after it |
| `Orphans.dfy` | exactly when cluster roles outlive their resource, and the deletions that do it |
| `Managers.dfy`, `Reconciler.dfy` | the Go methods in imperative form, proved to take the way of the machine |
| `DeepCopies.dfy` | the generated copies on the heap |
| `MapBuilder.dfy` | the builder's options that fill maps in place |

The pass is defined once as a machine (`Protocol.Pc`, `CallOf`, `Next`, `Tick`), because a pass can be cut at every
call. The methods of `Managers` and `Reconciler` have the shape of the Go code, make their calls through a client
object that holds the store, and each is proved to take the machine from its own start to the place where the code goes
on (`Reaches`). The way of a pass is unique (`Protocol.ReachedOnce`), so that fixes the store, the calls made and the
result; and a pass is a run of the system (`Protocol.PassIsRun`), so whatever is proved of all runs holds of the
methods.

## Assumptions

- Passes are serial: the controller is built without a concurrency option
  (`controllers/nfsprovisioner_controller.go:239-244`). Anybody may start the next pass, and others may write between
  any two calls unless a theorem says otherwise.
- Reads are current. A create on a present key fails, an update with a stale version fails, a write that changes
  nothing gives no new version, and a resource under deletion without finalizers disappears. Status and main resource
  are updated apart.
- A call may succeed, fail before its effect, or fail after it. A crash may follow any call.
- `SetControllerReference` sets nothing when a namespaced owner meets a cluster-scoped object or one of another
  namespace, and its error is ignored (`controllerutil.go:59-91` and `143-155` of the vendored controller-runtime).
  `AddFinalizer` appends unless present, `RemoveFinalizer` removes every occurrence (`353-377` there).
- Whether the resource definition of the SCC can be looked up is a flag of the cluster; the production scheme does not
  register its type (`cmd/main.go:47-55`), so the model covers both values, and a failed lookup too.
- The storage size is one that `resource.MustParse` accepts.

## Findings

Each of these is a theorem about the code as it is.

- The substring test on the user list asks for a suffix, not for equality (`Matching.MatchMeaning`), and for a prefix
  of the account name (`Matching.EntryMeaning`). A namespace of which another registered one ends is left without
  access: with `team-a` on the list, `a` is never added (`Tenants.SuffixStarves`; exactly when, for any list:
  `Tenants.GrantedUnlessMet`; over whole runs: `Tenants.UsersOverRuns`).
- A deletion runs the managers first, so it completes exactly if the spec is valid and the claim it names exists
  (`Faults.DeletionCompletes`). A resource with an invalid spec, or with a claim that has been deleted, cannot go.
- Passes are idempotent except in one family: a deletion that somebody else's finalizer holds up
  (`Faults.PassTwice`). The second pass recreates the cluster roles that the first one deleted, and no pass for the
  resource ever deletes them again, also not when the other finalizers are gone and it has left
  (`Leaks.RelapseLasts`); only the finalization of another resource, or a user, does.
- Three failing Gets go unnoticed. In the cleanup a failing Get counts as an absent object: if the resource goes, each
  cluster role stays exactly if it was there and the Get that looked for it failed (`Leaks.SwallowedGetsLeak`,
  `Leaks.CleanIffGetsSucceed`). In a deletion a failing lookup of the resource definition leaves the account
  unregistered exactly if it was so before (`Leaks.SwallowedLookup`). They do harm only when the finalizer then comes
  off: faults of any kind change where the passes lead if and only if at some moment the finalizer is taken off while
  a role is left or the account is missing (`Faults.FaultConfluence`).
- The finalizer is added after the objects are made. A new resource that is deleted anywhere in its first pass before
  that is gone at once; the pass goes on to its end, and if there were no cluster roles before, both stay, owned by
  nobody (`Orphans.DeletedTooEarly`). In general a departure is clean, however the operator goes on, if and only if no
  cluster role that passes for the resource made is left and no pass is on its way to make one
  (`Orphans.CleanDepartures`). Where no cleanup Get misses what is there and no foreign finalizer is involved, the
  finalizer tells: if it was still on the resource, the departure is clean (`Orphans.GuardedDepartures`).
- A single failing Get leaves the cluster role binding without its role: the cleanup deletes the role, misses the
  binding and takes the finalizer off. All references between the operator's objects hold throughout a run, under any
  faults, if and only if that does not happen to the last unfinished finalization (`Integrity.ReferencesOverRuns`).
- Two resources in one namespace share the deployment and the service. If a crash or a deletion has them made for
  different names, the service selects no pods (`Ownership.ServiceFindsPodsIff`).
- The cluster roles are shared. A pass takes something away from another resource if and only if it completes a
  cleanup (`Settling.ServedUnlessCleanup`); then both roles are gone for all others until those are reconciled again,
  and the binding names only the account of whoever comes first (`Commutation.FinalizationStripsOthers`,
  `Orders.RoundsCommute`).
- The third rule of the validation can never be the one that is reported (`Frame.ValidMeaning`).
- A copy that turned a nil node selector into an empty one would change the deployment exactly if a host path is used
  (`DeepCopies.NilSelectorMatters`).

## Model

| member | source | states |
|---|---|---|
| Faults.FaultConfluence | controllers/resources/manager.go:44-66 | Any number of passes for one resource, with errors before or after the effect and crashes at any call, then one fault-free pass: the result is always that of one fault-free pass from the start, and the cluster is the same if and only if no action took the finalizer off while a cluster role or a missing account was left; if the resource has gone so, the cluster is that one already |
| Faults.LeadsIff | controllers/nfsprovisioner_controller.go:87-177 | The same from the middle of a pass: over any run the closed form of the cluster survives if and only if every removal of the finalizer is clean |
| Faults.NoticedIsClean | controllers/nfsprovisioner_controller.go:180-216 | Every removal is clean if the definition lookup and the two cleanup Gets of deletions do not fail where there is something to find |
| Faults.LeadsKept | controllers/nfsprovisioner_controller.go:87-177 | Every single action but an unclean removal keeps where the passes lead, and what the pass in progress knows of the store |
| Faults.SyncStep | controllers/nfsprovisioner_controller.go:87-177 | What a pass has read and ensured so far stays true of the store at every call, under every fault |
| Faults.PassTwice | controllers/nfsprovisioner_controller.go:121-176 | A second pass changes nothing if and only if the first was not a completed cleanup held up by a foreign finalizer |
| Faults.DeletionCompletes | controllers/nfsprovisioner_controller.go:107-174 | A fault-free pass lets a resource under deletion with this finalizer alone go if and only if its spec is valid and the claim it names exists |
| Leaks.SwallowedGetsLeak | controllers/nfsprovisioner_controller.go:180-216 | Under any faults at all calls of the cleanup: if the resource goes, each cluster role is left exactly if it was there and the Get that looked for it failed, and no other object is touched |
| Leaks.CleanIffGetsSucceed | controllers/nfsprovisioner_controller.go:189-207 | With nothing but the two Gets disturbed, in any way, the resource goes without an error; it goes clean if and only if each Get succeeds or its object was absent, so with both objects there if and only if both succeed |
| Leaks.SwallowedLookup | controllers/resources/scc.go:37-51 | A deletion whose lookup of the resource definition fails ends without an error, and with the cluster of a pass without faults if and only if the account needed no registration |
| Leaks.RelapseLasts | controllers/nfsprovisioner_controller.go:121-174 | In a deletion held up by a foreign finalizer the first pass deletes both cluster roles, the second brings them back, and they stay through all later passes for the resource, with any faults, edits and its departure, as long as nobody else deletes them |
| Convergence.PassIsFullPass | controllers/nfsprovisioner_controller.go:87-177 | From any store a fault-free pass ends with the cluster and the result of the closed form: what is required and missing added, the account appended unless matched, the finalizer stage done |
| Convergence.ManagersRun | controllers/resources/manager.go:44-66 | From any store with the named claim, all managers without faults add exactly the missing required objects and the missing user |
| Convergence.ClaimMissingRun | controllers/resources/pvc.go:65-69 | With a named claim that does not exist the managers stop with an error after the SCC |
| Convergence.BuiltWhereLookedUp | controllers/resources/storageclass.go:38-70 | Every object that is ever created is built under exactly the key under which its manager looks for it; a claim is not when the user names another one |
| Convergence.RequiredMeaning | controllers/resources/manager.go:46-56 | The required objects are those of the managed kinds, each under its lookup key and as built from the spec |
| Results.ResultMeaning | controllers/nfsprovisioner_controller.go:87-177 | From any store and under any faults: a pass reports an error if and only if a call failed that is not the definition lookup or a cleanup Get, or the claim that a valid spec names is missing; it reports success only with its work done (absent resource: nothing; invalid spec: rejected in the status; live: all objects, finalizer and, unless the lookup failed, the account; deletion: this finalizer off) and asks to be called again exactly for live valid resources |
| Results.FailedCallEnds | controllers/nfsprovisioner_controller.go:98-171 | Whoever interferes, a failing call ends the pass with an error unless it is one of those three |
| Results.EarlierFirst | controllers/resources/manager.go:46-56 | Wherever a run of passes is cut, an object is created only when every managed object of the managers before it exists |
| Progress.BoundedWork | controllers/nfsprovisioner_controller.go:121-149 | For a live valid resource, writes made plus what is missing is constant over all passes with any faults, so they make at most eleven writes |
| Progress.SecondPassWritesNothing | controllers/resources/manager.go:58-65 | After a pass without error every required key is present and the next pass leaves the whole store, versions included, alone |
| Progress.SuccessLeavesNothing | controllers/resources/manager.go:58-65 | After a pass without error nothing is missing: no object, no user, no finalizer |
| Progress.FailuresNeedFaults | controllers/resources/manager.go:59-63 | With k faults at most k attempts fail, given that a named claim exists, for live and deleted resources |
| Progress.ExecClock | controllers/resources/manager.go:44-66 | A pass with no effective write leaves the store, versions included, as it was |
| Progress.NothingToWrite | controllers/nfsprovisioner_controller.go:121-176 | When nothing is missing for a live resource, a fault-free pass writes nothing |
| Settling.OneRoundSettles | controllers/nfsprovisioner_controller.go:87-177 | From any store, one fault-free pass for each of any number of ready resources, in any order and with any repetitions, leaves nothing missing for any of them, and all later passes for them leave the store, versions included, alone |
| Settling.ReadyStays | controllers/resources/manager.go:44-66 | A pass for one resource takes nothing away that another one is ready for or has been served with |
| Settling.ServedUnlessCleanup | controllers/nfsprovisioner_controller.go:87-177 | A resource that has everything still has it after a pass for any other one if and only if that pass does not complete a cleanup: invalid, stuck, absent and live resources and deletions without this finalizer take nothing |
| Protocol.VersionedKept | controllers/resources/scc.go:53-90 | While the version at which a pass read the resource or the SCC is current, its copy equals what is stored, whoever writes in between |
| Protocol.PassIsRun | controllers/nfsprovisioner_controller.go:87-177 | A whole pass is a run of the system of at most 27 steps with the same end |
| Protocol.ReachedOnce | controllers/nfsprovisioner_controller.go:87-177 | A pass gets to each place in one state only, and to one end |
| Protocol.ShapedKept | controllers/nfsprovisioner_controller.go:107-173 | Only a valid spec gets past validation; finalizers are added to live resources and cleaned up for deleted ones, in every run |
| Matching.MatchMeaning | controllers/resources/scc.go:72-80 | For colon-free names the substring test succeeds on the entry of N for ns if and only if ns is a suffix of N, or N starts with the account name and ns is a suffix of "serviceaccount" |
| Matching.EntryMeaning | controllers/resources/scc.go:72-80 | The same for the entry of any service account: ns is a suffix of its namespace and its name starts with the operator's account name, or the namespace does so and ns is a suffix of "serviceaccount" |
| Matching.MatchesAtColon | controllers/resources/scc.go:76 | For any user name at all: the test succeeds if and only if some colon has the namespace right before it and the account name right behind it |
| Matching.CoversMatch | controllers/resources/scc.go:76 | Wherever one of the two cases holds the test succeeds, for any strings |
| Tenants.MatchedMeaning | controllers/resources/scc.go:72-80 | On a list of namespace accounts the loop finds a user if and only if a listed namespace covers the one asked for |
| Tenants.GrantedUnlessMet | controllers/resources/scc.go:71-90 | For any list of any users, the SCC step puts the namespace's own account on it if and only if it was there or no user has the namespace right before a colon and the account name right behind it |
| Tenants.GrantedUnlessCovered | controllers/resources/scc.go:71-90 | On a list of users without colons and of any service accounts that is: if and only if it was there or no entry covers it |
| Tenants.GrantedAmongTenants | controllers/resources/scc.go:71-90 | On a list of the operator's own entries: if and only if it was there or no listed namespace covers it |
| Tenants.SuffixStarves | controllers/resources/scc.go:76 | With the account of a longer name ending in ns anywhere on the list, the step does nothing for ns, whose account is another one |
| Tenants.UsersOverRuns | controllers/resources/scc.go:53-90 | From no SCC, after any interleaving of passes for any namespaces, with failed updates and with conflicts from others who write the rest of the SCC, the users are exactly the accounts whose write took effect, each once; a pass past the step has a covering account listed, without collisions its own |
| Tenants.StaleUpdateFails | controllers/resources/scc.go:82-90 | Such a conflict: somebody changes the policy between the read and the update, the update fails with an error and changes nothing |
| Commutation.TenantsCommute | controllers/resources/scc.go:72-90 | Passes for two resources of independent namespaces leave, in either order, the same resources and objects, and users up to order; an absent binding goes to the first |
| Orders.RoundsCommute | controllers/resources/manager.go:44-66 | One pass for each of any number of independent live resources ends the same in any two orders: same resources, same objects, users up to order; an absent binding goes to the first whose claim is there |
| Orders.PassAllClosed | controllers/resources/manager.go:44-66 | What such a round leaves, in closed form: all that is asked for and missing, one account for each unmatched namespace in order, the finalizers |
| Commutation.FinalizationStripsOthers | controllers/nfsprovisioner_controller.go:180-216 | Completing a finalization takes both cluster roles from every live resource; the next one reconciled gets the binding (exactly when a pass takes something: Settling.ServedUnlessCleanup) |
| Commutation.SharedRequirement | controllers/resources/rbac.go:81-98 | Resources of different namespaces ask for different objects under one key only for the cluster role binding |
| Finalization.LeavesClean | controllers/nfsprovisioner_controller.go:150-173 | At the moment a resource without foreign finalizers leaves the store, in any run with any other resources in which its cleanup Gets find what is there and others make no cluster roles: neither role exists if and only if this finalizer was still on it or neither existed anyway; if it was, and it was the last resource, they stay absent |
| Finalization.CleaningKept | controllers/nfsprovisioner_controller.go:180-216 | Every action keeps: the resource has no foreign finalizer, each cleanup stage is reached only with the objects before it deleted; and every departure is the operator's clean removal or a deletion without finalizer that changes no object |
| Frame.EveryCallFramed | controllers/nfsprovisioner_controller.go:185-213 | At every moment of every run the next call changes no existing object but the SCC, which only gains one new account, deletes nothing but the two cluster roles in a cleanup, creates only what the builders make of a valid spec, and changes of a resource only status and this finalizer |
| Frame.RunPreserves | controllers/resources/scc.go:82-90 | Over a whole run of the operator alone: foreign objects, SCC policy, specs and foreign finalizers in their order stay, old users stay a prefix, this finalizer is not listed twice, only a deleted resource with no other finalizer goes |
| Frame.InvalidPass | controllers/nfsprovisioner_controller.go:107-119 | A pass on an invalid spec, with any faults, writes nothing or exactly a status that rejects the spec: no nodes, an error that names its three options |
| Objects.ReportsTellSpecs | controllers/nfsprovisioner_controller.go:108-112 | Such a status carries an error, and two are the same if and only if the three options agree |
| Frame.ValidMeaning | controllers/nfsprovisioner_controller.go:47-64 | Validation accepts exactly the specs that set at most one of the three storage options; it reports a claim first, the host path otherwise, and the third rule never fires |
| Objects.DefaultsMeaning | controllers/resources/deployment.go:67-85 | An empty field means its default: writing the defaults out changes neither validity nor any key looked up nor any object created |
| Objects.SpecIsCarried | controllers/resources/pvc.go:79-102 | Claim, deployment and storage class carry what the spec with its defaults written out says; a selector counts only for a host path |
| Objects.ExplicitKeeps | controllers/resources/deployment.go:71-83 | Writing the defaults out overwrites nothing that the spec says |
| Objects.DefaultValues | controllers/defaults/defaults.go:7-46 | The names and values that an empty spec amounts to |
| Frame.WithoutCounts | controllers/nfsprovisioner_controller.go:228-236 | The filter removes every occurrence of its string and keeps the number of all others |
| Frame.WithoutJoins | controllers/nfsprovisioner_controller.go:228-236 | The filter works entry by entry, so all other entries keep their order |
| Frame.AddThenRemove | controllers/nfsprovisioner_controller.go:140-162 | Adding the finalizer appends it at most once and disturbs no other; adding then removing it restores a list without it |
| Integrity.ObjectReferences | controllers/resources/rbac.go:176-242 | In every state of every run with any faults, crashes, spec and finalizer edits: deployments, role bindings and the cluster role binding are what their keys say; a deployment names the namespace's account and a claim that exist, a role binding binds that account to the namespace's role and both exist, the cluster role binding's subject exists; if others write none of these objects and delete no claim, account or role |
| Integrity.RoleReference | controllers/nfsprovisioner_controller.go:180-216 | Under any faults the cluster role binding is without its role in no state outside a finalization, if and only if no action completes the last unfinished finalization while the binding is there without its role |
| Integrity.ReferencesOverRuns | controllers/resources/manager.go:46-56 | Both together for every state of every run: all references hold throughout if and only if no such completion happens |
| Integrity.FoundBindingsSuffice | controllers/nfsprovisioner_controller.go:204-213 | No such completion happens if the cleanup's Get of the binding never fails on a binding that is there |
| Integrity.DeploymentsOverRuns | controllers/resources/deployment.go:191-217 | From any store, with any faults and edits as long as others delete no claim: whenever a deployment is about to be created, its spec sets at most one storage option, its volume is the host path exactly if one is named, and otherwise a claim that exists |
| Integrity.RoleSoundStep | controllers/resources/rbac.go:34-58 | A single action keeps the role reference if and only if it is not such a completion, and keeps otherwise what the pass relies on |
| Ownership.ServiceFindsPods | controllers/resources/service.go:59-99 | With one resource name per namespace, whenever both exist the service's selector and own labels equal the deployment's pod labels and match labels, across crashes and spec edits; they are the common label and the one that names the resource |
| Ownership.ServiceFindsPodsIff | controllers/resources/deployment.go:65-104 | With any resources in a namespace, whenever both exist the selector equals the pod labels if and only if the two were made for resources of the same name, which their labels give |
| Ownership.LabelsTellNames | controllers/resources/deployment.go:221-223 | The labels of two resources of different names agree on exactly the common label |
| Ownership.FitsOverRuns | controllers/resources/rbac.go:140-242 | Over all runs the operator stores under every key an object of the key's kind |
| Ownership.ConstantBodies | controllers/resources/rbac.go:140-219 | Rules and storage classes are the same for all resources, and the two roles differ |
| Departures.NothingLeft | controllers/nfsprovisioner_controller.go:94-176 | Over the whole life of a resource and any run after it, with others writing, provided its cleanup Gets find what is there and others make no cluster roles: if the finalizer was still on it when it went, or no cluster role of its passes was left and no pass for it was before the roles, then of all its passes ever create only storage classes are left; with the finalizer or no pass in progress nothing more is created |
| Orphans.CleanDepartures | controllers/nfsprovisioner_controller.go:94-176 | After any run at whose end the resource is absent, with any faults, finalizers and writes of others outside its namespace: however the operator goes on by itself, of all that passes for it created only storage classes stay, if and only if no cluster role they created is left and no pass in progress will create one |
| Orphans.GuardedDepartures | controllers/nfsprovisioner_controller.go:121-173 | For lives whose cleanup Gets find what is there, with no foreign finalizer in the last stretch and no cluster roles written by others, that is: if and only if the finalizer was still on it, or no such role is left and none is to come |
| Orphans.DeletedTooEarly | controllers/nfsprovisioner_controller.go:107-149 | For every new valid resource whose claim is there, with no cluster roles in the store, and every place in its first pass from validation to the adding of the finalizer: deleted there it is gone at once, the rest of the pass runs to its end, and both cluster roles it made stay, owned by nobody |
| Ownership.BuiltOwner | controllers/resources/storageclass.go:78 | An object is owned by its resource exactly if it is in its namespace; all others are the cluster roles or storage classes |
| Managers.Client.Do | controllers/resources/common.go:23-27 | One API call on the cluster, with its fault; it is the one the machine makes at that place |
| Managers.IsSccCrdAvailable | controllers/resources/scc.go:37-41 | Any failure of the lookup counts as not available and skips the SCC |
| Managers.UserExists | controllers/resources/scc.go:73-80 | The loop with its early exit finds a user if and only if some entry contains the pattern |
| Managers.EnsureScc | controllers/resources/scc.go:44-93 | Creates, appends or leaves the SCC as the machine does, and ends at the claim stage or with the error |
| Managers.EnsurePvc | controllers/resources/pvc.go:35-76 | Host path, user's claim and managed claim, with every error, as the machine does |
| Managers.GetOrCreate | controllers/resources/deployment.go:35-61 | Get, create if not found, any other error returned, as the machine does |
| Managers.EnsureRbac | controllers/resources/rbac.go:34-58 | The four RBAC objects in order, stopping at the first error |
| Managers.EnsureResource | controllers/resources/manager.go:46-60 | Each manager leads from its place in the order to the next manager's |
| Managers.EnsureAllResources | controllers/resources/manager.go:44-66 | The loop over the managers takes the machine from the first manager to the finalizer stage or stops with the error; without faults it leaves exactly the closed form |
| Reconciler.ContainsString | controllers/nfsprovisioner_controller.go:219-226 | Membership |
| Reconciler.RemoveString | controllers/nfsprovisioner_controller.go:228-236 | The order-preserving filter |
| Reconciler.DeleteFound | controllers/nfsprovisioner_controller.go:189-197 | One Get and, if it succeeds, one Delete; a failing Get goes on as if the object were absent |
| Reconciler.DeleteExternalResources | controllers/nfsprovisioner_controller.go:180-216 | The cleanup takes the machine from its start to the removal of the finalizer, or ends with the error |
| Reconciler.MakePass | controllers/nfsprovisioner_controller.go:87-177 | The code of a pass goes the machine's way under any faults |
| Reconciler.Reconcile | controllers/nfsprovisioner_controller.go:87-177 | Store, result and calls of the code are those of the whole machine pass for any faults, and without faults those of the closed form; an error is returned if and only if a noticed call failed or the named claim is missing, success only with the work done |
| DeepCopies.ImageConfiguration.DeepCopyInto | api/v1alpha1/zz_generated.deepcopy.go:29-41 | Equal in value, nil pointers included, in fresh memory, the original unchanged, also when copied onto itself |
| DeepCopies.ImageConfiguration.DeepCopy | api/v1alpha1/zz_generated.deepcopy.go:43-51 | A fresh object equal in value that shares nothing |
| DeepCopies.ProvisionerSpec.DeepCopyInto | api/v1alpha1/zz_generated.deepcopy.go:113-127 | Equal in value, nil selector and nil image configuration included, all memory behind the copy fresh |
| DeepCopies.ProvisionerSpec.DeepCopy | api/v1alpha1/zz_generated.deepcopy.go:129-137 | A fresh object equal in value that shares nothing |
| DeepCopies.CopyMap | api/v1alpha1/zz_generated.deepcopy.go:116-121 | The entry-by-entry loop fills a fresh map with exactly the entries of the source |
| DeepCopies.ProvisionerStatus.DeepCopyInto | api/v1alpha1/zz_generated.deepcopy.go:140-147 | Equal in value, nil list included, with a fresh list |
| DeepCopies.Provisioner.DeepCopyInto | api/v1alpha1/zz_generated.deepcopy.go:58-59 | Spec and status (and the type) copied into the target's own, all memory behind them fresh |
| DeepCopies.CopyEach | api/v1alpha1/zz_generated.deepcopy.go:88-90 | The loop makes a copy of every item, equal in value, in fresh memory, and no two copies share any memory |
| DeepCopies.ProvisionerList.DeepCopyInto | api/v1alpha1/zz_generated.deepcopy.go:85-91 | Nil items stay nil; otherwise a fresh list of copies of the items in order, equal in value, each in fresh memory that it shares with no other |
| DeepCopies.SpecValueTells | api/v1alpha1/zz_generated.deepcopy.go:113-127 | Specs of equal value agree in every field, nil selectors and image configurations included, so a copy loses none |
| DeepCopies.ImageValueTells | api/v1alpha1/zz_generated.deepcopy.go:29-41 | The same for image configurations |
| DeepCopies.StatusValueTells | api/v1alpha1/zz_generated.deepcopy.go:140-147 | The same for statuses, nil lists included |
| DeepCopies.ValueTells | api/v1alpha1/zz_generated.deepcopy.go:54-60 | The same for resources: type, spec and status |
| DeepCopies.CopyIsSeparate | api/v1alpha1/zz_generated.deepcopy.go:54-70 | A copy in fresh memory has no memory in common with its original |
| DeepCopies.WritesDoNotShow | api/v1alpha1/zz_generated.deepcopy.go:54-70 | Of an original and its copy, or of two copies in a list, whatever is written to one never shows in the other's type, spec or status, either way |
| DeepCopies.NilSelectorMatters | controllers/resources/deployment.go:71-87 | Nil and empty selectors give the same deployment if and only if no host path is used |
| MapBuilder.SetMapEntries | builder/object_builder.go:63-84 | The in-place loop, in bounds for every list, leaves the map as the padded pairs written one after the other, on the same map unless it was nil |
| MapBuilder.LastWins | builder/object_builder.go:76-80 | Of several pairs for a key the last one counts |
| MapBuilder.UnmentionedStays | builder/object_builder.go:72-80 | A key that the list does not mention keeps its value or stays absent |
| MapBuilder.ApplyTwice | builder/object_builder.go:63-84 | Applying a then b is applying a followed by b, an odd a padded first |
| MapBuilder.OddListsDoNotJoin | builder/object_builder.go:68-70 | Without that padding an odd list followed by another means something else |
| MapBuilder.ObjectMeta.WithLabels | builder/object_builder.go:31-35 | The labels become the padded pairs written over the old ones, annotations untouched |
| MapBuilder.ObjectMeta.WithAnnotations | builder/object_builder.go:57-61 | The same for annotations, labels untouched |
| MapBuilder.ObjectMeta.WithLabelsMap | builder/object_builder.go:39-53 | The given entries override the old ones and all others stay, also when the given map is the object's own |

## Left out

- Work queue, watches, leader election and the informer cache: library code; reads are taken as current.
- Scheme registration and start-up in `cmd/main.go`: plumbing.
- Constant payloads (policy rules, port lists, capabilities, the SCC's other fields, registry and digest of the image)
  and the text of the error status: opaque values, spelling them out adds only easy facts.
- Logging, contexts, manifests, scripts and packaging: input and output.
- Namespace builder and the one-line setters in `builder`: trivial.
- `DeepCopyObject`: a thin wrapper.
- Nil receivers of `DeepCopy`, which return nil: the methods here have a receiver.
- Go maps shared between built objects and the default node selector: built objects are values.
- Spare capacity of a caller's slice that `append` may write to when `setMapEntries` pads it: the list is a value.
- The garbage collector: only its outcome, removal of what a gone owner owned, in `Ownership.Collected`.
- Faults.FaultConfluence: leaves out a valid deletion held up by a foreign finalizer, for which the claim is false
  (`Faults.PassTwice`).
- DeepCopies.Provisioner.DeepCopyInto: does not model the object metadata, whose copy is the library's
  `ObjectMeta.DeepCopyInto`.
- DeepCopies.ProvisionerList.DeepCopyInto: does not model the list metadata, whose copy is the library's
  `ListMeta.DeepCopyInto`.
- Tenants.UsersOverRuns: takes the definition lookup as succeeding throughout, without which the SCC step is skipped, and
  the users as written by nobody else; others may write the rest of the SCC at any time.
- Integrity.ReferencesOverRuns: takes it that others delete no claim, account, role or cluster role, write no
  deployments and bindings under the operator's names, and do not take the finalizer off a resource under deletion; if
  they do, the operator does not repair existing objects that refer to them before its next pass.
- Departures.NothingLeft, Finalization.LeavesClean: take it that the cleanup Gets of the resource find what is there and
  that others make no cluster roles; what happens otherwise is in `Leaks.SwallowedGetsLeak` and
  `Orphans.CleanDepartures`.
- DeepCopies.CopyEach: the Go loop fills zeroed structs inside one slice; here the items are separate objects collected
  into a new array.
- Managers.GetOrCreate: the service account, the four RBAC objects, the deployment, the service and the storage class
  each have their own copy of this code in Go; the model has one, with the kind as parameter.
