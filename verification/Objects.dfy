/** The custom resource, the cluster objects the operator manages, and the functions that build them.

    Constant payloads (policy rules, port lists, capabilities, security policies) are opaque tokens:
    no property depends on what is inside them. */
module Objects {

  datatype Option<+T> = None | Some(value: T)

  // ---------------------------------------------------------------- the custom resource

  datatype ImageConfig = ImageConfig(image: Option<string>, pullPolicy: Option<string>)

  datatype Spec = Spec(
    hostPathDir: string,
    pvc: string,
    storageSize: string,
    scForNFSPvc: string,
    nodeSelector: Option<map<string, string>>,
    scForNFSProvisioner: string,
    imageConfig: Option<ImageConfig>)

  /** The text that lists the three storage options of a rejected spec, unformatted. */
  datatype ErrorText = NoError | Rejected(pvc: string, sc: string, hostPathDir: string)

  datatype Status = Status(nodes: seq<string>, error: ErrorText)

  datatype CrName = CrName(ns: string, name: string)

  /** An NFSProvisioner; `deleting` says that its deletion timestamp is set. */
  datatype Cr = Cr(uid: string, deleting: bool, finalizers: seq<string>, spec: Spec, status: Status)

  const FINALIZER := "nfsprovisioner.finalizers.jhouse.io"

  // ---------------------------------------------------------------- cluster objects

  /** Every kind of object the operator gets or creates, in the order in which it does so. */
  datatype Kind =
    | Pvc | ServiceAccount | ClusterRole | ClusterRoleBinding | Role | RoleBinding
    | Deployment | Service | StorageClass

  datatype Key = Key(kind: Kind, ns: string, name: string)

  datatype Payload = Payload(id: string)

  datatype Volume = HostPathVolume(path: string) | ClaimVolume(claim: string)

  /** References to other objects (subjects, role references, service accounts) are kept as resolved keys. */
  datatype Body =
    | PvcBody(storageClass: string, size: string)
    | ServiceAccountBody
    | RulesBody(rules: Payload)
    | BindingBody(subject: Key, roleRef: Key)
    | DeploymentBody(
        volume: Volume, nodeSelector: map<string, string>, image: string, pullPolicy: string,
        account: Key, matchLabels: map<string, string>, podLabels: map<string, string>)
    | ServiceBody(labels: map<string, string>, selector: map<string, string>, ports: Payload)
    | StorageClassBody(provisioner: string, parameters: map<string, string>)

  /** `owner` is the uid of the controller reference. */
  datatype Object = Object(owner: Option<string>, body: Body)

  datatype Manifest = Manifest(key: Key, obj: Object)

  /** The one SecurityContextConstraints object the operator touches. */
  datatype Scc = Scc(users: seq<string>, policy: Payload)

  // ---------------------------------------------------------------- default names

  const DEFAULT_PVC := "nfs-server"
  const DEFAULT_STORAGE_SIZE := "10G"
  const DEFAULT_SC_FOR_PVC := "local-sc"
  const DEFAULT_SC := "nfs"
  const ACCOUNT_NAME := "nfs-provisioner"
  const CLUSTER_ROLE_NAME := "nfs-provisioner-runner"
  const ROLE_NAME := "leader-locking-nfs-provisioner"
  const DEPLOYMENT_NAME := "nfs-provisioner"
  const SERVICE_NAME := "nfs-provisioner"
  const DEFAULT_IMAGE := "sig-storage/nfs-provisioner"  // registry and digest left out
  const DEFAULT_PULL_POLICY := "Always"
  const DEFAULT_NODE_SELECTOR := map["app" := "nfs-provisioner"]

  const ROLE_KEY := Key(ClusterRole, "", CLUSTER_ROLE_NAME)
  const BINDING_KEY := Key(ClusterRoleBinding, "", CLUSTER_ROLE_NAME)

  function AccountKey(ns: string): Key {
    Key(ServiceAccount, ns, ACCOUNT_NAME)
  }

  // ---------------------------------------------------------------- validation

  datatype SpecError = OtherOptionWithPvc | OtherOptionWithHostPath | OtherOptionWithStorageClass

  /** The first violated rule, if any. */
  function Validate(spec: Spec): Option<SpecError> {
    if spec.pvc != "" && (spec.scForNFSPvc != "" || spec.hostPathDir != "") then Some(OtherOptionWithPvc)
    else if spec.hostPathDir != "" && (spec.scForNFSPvc != "" || spec.pvc != "") then Some(OtherOptionWithHostPath)
    else if spec.scForNFSPvc != "" && (spec.pvc != "" || spec.hostPathDir != "") then Some(OtherOptionWithStorageClass)
    else None
  }

  predicate Valid(spec: Spec) {
    Validate(spec).None?
  }

  function StorageOptions(spec: Spec): nat {
    (if spec.pvc != "" then 1 else 0) +
    (if spec.scForNFSPvc != "" then 1 else 0) +
    (if spec.hostPathDir != "" then 1 else 0)
  }

  function InvalidStatus(spec: Spec): Status {
    Status([], Rejected(spec.pvc, spec.scForNFSPvc, spec.hostPathDir))
  }

  /** The status tells that the spec is rejected, and which options it sets. */
  predicate Rejects(status: Status, spec: Spec) {
    && status.nodes == [] && status.error.Rejected?
    && status.error.pvc == spec.pvc && status.error.sc == spec.scForNFSPvc
    && status.error.hostPathDir == spec.hostPathDir
  }

  lemma StatusRejects(spec: Spec)
    ensures Rejects(InvalidStatus(spec), spec)
  {
  }

  /** What is reported about two rejected specs is the same if and only if they set the same options. */
  lemma ReportsTellSpecs(a: Status, specA: Spec, b: Status, specB: Spec)
    requires Rejects(a, specA) && Rejects(b, specB)
    ensures a.error != NoError
    ensures a.error == b.error <==>
              specA.pvc == specB.pvc && specA.scForNFSPvc == specB.scForNFSPvc && specA.hostPathDir == specB.hostPathDir
  {
  }

  // ---------------------------------------------------------------- builders

  /** What controllerutil.SetControllerReference leaves on an object of namespace `ns`, its error being ignored:
      a namespaced owner never owns a cluster-scoped object or one of another namespace. */
  function ControllerOf(n: CrName, cr: Cr, ns: string): Option<string> {
    if n.ns != "" && ns != n.ns then None else Some(cr.uid)
  }

  function Labels(name: string): map<string, string> {
    map["app" := "nfs-provisioner", "nfsprovisioner_cr" := name]
  }

  function Account(ns: string): string {
    "system:serviceaccount:" + ns + ":" + ACCOUNT_NAME
  }

  function BuildScc(ns: string): Scc {
    Scc([Account(ns)], Payload("scc"))
  }

  function BuildPvc(n: CrName, cr: Cr): Manifest {
    var scName := if cr.spec.scForNFSPvc != "" then cr.spec.scForNFSPvc else DEFAULT_SC_FOR_PVC;
    var size := if cr.spec.storageSize != "" then cr.spec.storageSize else DEFAULT_STORAGE_SIZE;
    Manifest(Key(Pvc, n.ns, DEFAULT_PVC), Object(ControllerOf(n, cr, n.ns), PvcBody(scName, size)))
  }

  function BuildServiceAccount(n: CrName, cr: Cr): Manifest {
    Manifest(AccountKey(n.ns), Object(ControllerOf(n, cr, n.ns), ServiceAccountBody))
  }

  function BuildClusterRole(n: CrName, cr: Cr): Manifest {
    Manifest(ROLE_KEY, Object(ControllerOf(n, cr, ""), RulesBody(Payload("cluster-role"))))
  }

  function BuildClusterRoleBinding(n: CrName, cr: Cr): Manifest {
    Manifest(BINDING_KEY, Object(ControllerOf(n, cr, ""), BindingBody(AccountKey(n.ns), ROLE_KEY)))
  }

  function BuildRole(n: CrName, cr: Cr): Manifest {
    Manifest(Key(Role, n.ns, ROLE_NAME), Object(ControllerOf(n, cr, n.ns), RulesBody(Payload("role"))))
  }

  function BuildRoleBinding(n: CrName, cr: Cr): Manifest {
    Manifest(
      Key(RoleBinding, n.ns, ROLE_NAME),
      Object(ControllerOf(n, cr, n.ns), BindingBody(AccountKey(n.ns), Key(Role, n.ns, ROLE_NAME))))
  }

  datatype StorageType = PvcStorage | HostPathStorage

  function StorageTypeOf(spec: Spec): StorageType {
    if spec.hostPathDir != "" then HostPathStorage else PvcStorage
  }

  function VolumeOf(spec: Spec, storage: StorageType): Volume {
    var claim := if spec.pvc != "" then spec.pvc else DEFAULT_PVC;
    if storage == HostPathStorage then HostPathVolume(spec.hostPathDir) else ClaimVolume(claim)
  }

  function BuildDeployment(n: CrName, cr: Cr, storage: StorageType): Manifest {
    var spec := cr.spec;
    var image :=
      if spec.imageConfig.Some? && spec.imageConfig.value.image.Some?
      then spec.imageConfig.value.image.value else DEFAULT_IMAGE;
    var pullPolicy :=
      if spec.imageConfig.Some? && spec.imageConfig.value.pullPolicy.Some?
      then spec.imageConfig.value.pullPolicy.value else DEFAULT_PULL_POLICY;
    var selector :=
      if storage == PvcStorage then map[]
      else if spec.nodeSelector.Some? then spec.nodeSelector.value
      else DEFAULT_NODE_SELECTOR;
    Manifest(
      Key(Deployment, n.ns, DEPLOYMENT_NAME),
      Object(
        ControllerOf(n, cr, n.ns),
        DeploymentBody(
          VolumeOf(spec, storage), selector, image, pullPolicy,
          AccountKey(n.ns), Labels(n.name), Labels(n.name))))
  }

  function BuildService(n: CrName, cr: Cr): Manifest {
    Manifest(
      Key(Service, n.ns, SERVICE_NAME),
      Object(ControllerOf(n, cr, n.ns), ServiceBody(Labels(n.name), Labels(n.name), Payload("ports"))))
  }

  function BuildStorageClass(n: CrName, cr: Cr): Manifest {
    var scName := if cr.spec.scForNFSProvisioner != "" then cr.spec.scForNFSProvisioner else DEFAULT_SC;
    Manifest(
      Key(StorageClass, "", scName),
      Object(ControllerOf(n, cr, ""), StorageClassBody("example.com/nfs", map["mountOptions" := "vers=4.1"])))
  }

  function Build(n: CrName, cr: Cr, kind: Kind): Manifest {
    match kind
    case Pvc => BuildPvc(n, cr)
    case ServiceAccount => BuildServiceAccount(n, cr)
    case ClusterRole => BuildClusterRole(n, cr)
    case ClusterRoleBinding => BuildClusterRoleBinding(n, cr)
    case Role => BuildRole(n, cr)
    case RoleBinding => BuildRoleBinding(n, cr)
    case Deployment => BuildDeployment(n, cr, StorageTypeOf(cr.spec))
    case Service => BuildService(n, cr)
    case StorageClass => BuildStorageClass(n, cr)
  }

  /** The key under which the manager of `kind` looks for its object before it builds one. */
  function LookupKey(n: CrName, spec: Spec, kind: Kind): Key {
    match kind
    case Pvc => Key(Pvc, n.ns, if spec.pvc != "" then spec.pvc else DEFAULT_PVC)
    case ServiceAccount => Key(ServiceAccount, n.ns, ACCOUNT_NAME)
    case ClusterRole => Key(ClusterRole, "", CLUSTER_ROLE_NAME)
    case ClusterRoleBinding => Key(ClusterRoleBinding, "", CLUSTER_ROLE_NAME)
    case Role => Key(Role, n.ns, ROLE_NAME)
    case RoleBinding => Key(RoleBinding, n.ns, ROLE_NAME)
    case Deployment => Key(Deployment, n.ns, DEPLOYMENT_NAME)
    case Service => Key(Service, n.ns, SERVICE_NAME)
    case StorageClass =>
      Key(StorageClass, "", if spec.scForNFSProvisioner != "" then spec.scForNFSProvisioner else DEFAULT_SC)
  }

  /** The operator creates the objects of this kind itself; the claim only when neither a host path nor a
      user's claim is named. */
  predicate Managed(spec: Spec, kind: Kind) {
    kind == Pvc ==> spec.hostPathDir == "" && spec.pvc == ""
  }

  // ---------------------------------------------------------------- defaults

  /** The spec with the default written out for every field that is left empty and used. */
  function Explicit(spec: Spec): Spec {
    var config := if spec.imageConfig.Some? then spec.imageConfig.value else ImageConfig(None, None);
    spec.(
      storageSize := if spec.storageSize != "" then spec.storageSize else DEFAULT_STORAGE_SIZE,
      scForNFSPvc := if spec.scForNFSPvc != "" || !Managed(spec, Pvc) then spec.scForNFSPvc else DEFAULT_SC_FOR_PVC,
      nodeSelector :=
        if spec.nodeSelector.Some? || spec.hostPathDir == "" then spec.nodeSelector else Some(DEFAULT_NODE_SELECTOR),
      scForNFSProvisioner := if spec.scForNFSProvisioner != "" then spec.scForNFSProvisioner else DEFAULT_SC,
      imageConfig := Some(ImageConfig(
        Some(if config.image.Some? then config.image.value else DEFAULT_IMAGE),
        Some(if config.pullPolicy.Some? then config.pullPolicy.value else DEFAULT_PULL_POLICY))))
  }

  /** Nothing that the spec says is overwritten. */
  lemma ExplicitKeeps(spec: Spec)
    ensures var e := Explicit(spec);
            && e.hostPathDir == spec.hostPathDir && e.pvc == spec.pvc
            && (spec.storageSize != "" ==> e.storageSize == spec.storageSize)
            && (spec.scForNFSPvc != "" ==> e.scForNFSPvc == spec.scForNFSPvc)
            && (spec.nodeSelector.Some? ==> e.nodeSelector == spec.nodeSelector)
            && (spec.scForNFSProvisioner != "" ==> e.scForNFSProvisioner == spec.scForNFSProvisioner)
            && e.imageConfig.Some? && e.imageConfig.value.image.Some? && e.imageConfig.value.pullPolicy.Some?
            && (spec.imageConfig.Some? && spec.imageConfig.value.image.Some? ==>
              e.imageConfig.value.image == spec.imageConfig.value.image)
            && (spec.imageConfig.Some? && spec.imageConfig.value.pullPolicy.Some? ==>
              e.imageConfig.value.pullPolicy == spec.imageConfig.value.pullPolicy)
  {
  }

  /** An empty field means its default: writing the defaults out changes neither validity nor any object that is
      looked up or created. */
  lemma DefaultsMeaning(n: CrName, cr: Cr, kind: Kind)
    ensures var cr' := cr.(spec := Explicit(cr.spec));
            && Explicit(cr'.spec) == cr'.spec
            && (Valid(cr'.spec) <==> Valid(cr.spec))
            && LookupKey(n, cr'.spec, kind) == LookupKey(n, cr.spec, kind)
            && (Managed(cr'.spec, kind) <==> Managed(cr.spec, kind))
            && (Managed(cr.spec, kind) ==> Build(n, cr', kind) == Build(n, cr, kind))
  {
  }

  /** And what is written in the spec is what the objects carry. */
  lemma SpecIsCarried(n: CrName, cr: Cr)
    ensures var spec, body := Explicit(cr.spec), Build(n, cr, Deployment).obj.body;
            && spec.imageConfig == Some(ImageConfig(Some(body.image), Some(body.pullPolicy)))
            && (if spec.hostPathDir != ""
                then body.volume == HostPathVolume(spec.hostPathDir) && spec.nodeSelector == Some(body.nodeSelector)
                else body.volume == ClaimVolume(LookupKey(n, spec, Pvc).name) && body.nodeSelector == map[])
            && (Managed(cr.spec, Pvc) ==> Build(n, cr, Pvc).obj.body == PvcBody(spec.scForNFSPvc, spec.storageSize))
            && Build(n, cr, StorageClass).key.name == spec.scForNFSProvisioner
  {
  }

  /** What an empty spec amounts to, in the values that users see; the finalizer too. */
  lemma DefaultValues(n: CrName, cr: Cr, kind: Kind)
    requires cr.spec == Spec("", "", "", "", None, "", None)
    ensures Build(n, cr, Pvc).key == Key(Pvc, n.ns, "nfs-server")
    ensures Build(n, cr, Pvc).obj.body == PvcBody("local-sc", "10G")
    ensures Build(n, cr, StorageClass).key == Key(StorageClass, "", "nfs")
    ensures Build(n, cr, StorageClass).obj.body ==
              StorageClassBody("example.com/nfs", map["mountOptions" := "vers=4.1"])
    ensures Build(n, cr, Deployment).obj.body.pullPolicy == "Always"
    ensures Build(n, cr, Deployment).obj.body.volume == ClaimVolume("nfs-server")
    ensures Build(n, cr.(spec := cr.spec.(hostPathDir := "/srv")), Deployment).obj.body.nodeSelector ==
              map["app" := "nfs-provisioner"]
    ensures WithFinalizer([]) == ["nfsprovisioner.finalizers.jhouse.io"]
    ensures kind in {ServiceAccount, Deployment, Service} ==>
              Build(n, cr, kind).key == Key(kind, n.ns, "nfs-provisioner")
    ensures kind in {ClusterRole, ClusterRoleBinding} ==>
              Build(n, cr, kind).key == Key(kind, "", "nfs-provisioner-runner")
    ensures kind in {Role, RoleBinding} ==>
              Build(n, cr, kind).key == Key(kind, n.ns, "leader-locking-nfs-provisioner")
  {
  }

  // ---------------------------------------------------------------- finalizers

  /** controllerutil.AddFinalizer. */
  function WithFinalizer(finalizers: seq<string>): seq<string> {
    if FINALIZER in finalizers then finalizers else finalizers + [FINALIZER]
  }

  /** The order-preserving filter that removes every occurrence of `s`. */
  function Without(xs: seq<string>, s: string): seq<string> {
    if xs == [] then []
    else if xs[|xs| - 1] == s then Without(xs[..|xs| - 1], s)
    else Without(xs[..|xs| - 1], s) + [xs[|xs| - 1]]
  }
}
