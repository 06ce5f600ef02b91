/** Labels and owners over whole runs: the service selects the pods, and what a resource's passes created goes with
    the resource. */
module Ownership {
  import opened Objects
  import opened Protocol

  // ---------------------------------------------------------------- labels

  function DeploymentKey(ns: string): Key {
    Key(Deployment, ns, DEPLOYMENT_NAME)
  }

  function ServiceKey(ns: string): Key {
    Key(Service, ns, SERVICE_NAME)
  }

  /** The deployment selects and labels its pods with these labels. */
  predicate DeploymentLabelled(o: Object, labels: map<string, string>) {
    o.body.DeploymentBody? && o.body.podLabels == labels && o.body.matchLabels == labels
  }

  /** The service selects and carries these labels. */
  predicate ServiceSelects(o: Object, labels: map<string, string>) {
    o.body.ServiceBody? && o.body.selector == labels && o.body.labels == labels
  }

  /** The two labels of a resource's objects: the common one, and the one that names the resource. */
  predicate NamesResource(labels: map<string, string>, name: string) {
    && labels.Keys == {"app", "nfsprovisioner_cr"}
    && labels["app"] == "nfs-provisioner" && labels["nfsprovisioner_cr"] == name
  }

  /** So the labels of any two resources agree on exactly one key, unless they have the same name. */
  lemma LabelsTellNames(a: string, b: string)
    ensures NamesResource(Labels(a), a)
    ensures Labels(a) == Labels(b) <==> a == b
    ensures a != b ==> (set k | k in Labels(a) && k in Labels(b) && Labels(a)[k] == Labels(b)[k]) == {"app"}
  {
    assert Labels(a)["nfsprovisioner_cr"] == a && Labels(b)["nfsprovisioner_cr"] == b;
    if a != b {
      var same := set k | k in Labels(a) && k in Labels(b) && Labels(a)[k] == Labels(b)[k];
      assert "app" in same;
      assert forall k :: k in same ==> k in Labels(a).Keys;
    }
  }

  /** In every namespace the operator's objects carry the labels of the one resource name used there. */
  ghost predicate Labelled(s: System, names: string -> string) {
    && (forall ns :: DeploymentKey(ns) in s.st.c.objs ==>
      DeploymentLabelled(s.st.c.objs[DeploymentKey(ns)], Labels(names(ns))))
    && (forall ns :: ServiceKey(ns) in s.st.c.objs ==> ServiceSelects(s.st.c.objs[ServiceKey(ns)], Labels(names(ns))))
    && (s.pc.Fetching? ==> s.pc.n.name == names(s.pc.n.ns))
    && (HasSnap(s.pc) ==> s.pc.p.n.name == names(s.pc.p.n.ns))
  }

  /** One resource name per namespace; others do not write the two objects. */
  predicate OneName(names: string -> string, s: System, a: Action) {
    match a
    case Start(n) => n.name == names(n.ns)
    case Env(WriteObj(k, _)) => k != DeploymentKey(k.ns) && k != ServiceKey(k.ns)
    case _ => true
  }

  lemma NextName(st: Store, pc: Pc, fault: Fault)
    requires !pc.Finished?
    ensures var pc' := Tick(st, pc, fault).1;
            !pc'.Fetching? && (HasSnap(pc') ==> pc'.p.n == if pc.Fetching? then pc.n else pc.p.n)
    ensures var pc' := Tick(st, pc, fault).1;
            HasSnap(pc) && HasSnap(pc') ==> pc'.p == pc.p
  {
  }

  /** Only a creation adds an object, the one it builds. */
  lemma StepAdds(st: Store, pc: Pc, fault: Fault, k: Key)
    requires !pc.Finished? && k in Tick(st, pc, fault).0.c.objs
    ensures var objs' := Tick(st, pc, fault).0.c.objs;
            if k in st.c.objs then objs'[k] == st.c.objs[k]
            else pc.Creating? && Manifest(k, objs'[k]) == Build(pc.p.n, pc.p.cr, pc.kind)
  {
    hide Build;
    if pc.Creating? {
      assert CallOf(pc) == CreateObj(Build(pc.p.n, pc.p.cr, pc.kind));
    }
  }

  lemma LabelledKept(s: System, names: string -> string, a: Action)
    requires Labelled(s, names) && OneName(names, s, a)
    ensures Labelled(Apply(s, a), names)
  {
    if a.Step? && !s.pc.Finished? {
      NextName(s.st, s.pc, a.fault);
      LabelledStep(s, names, a.fault);
    }
  }

  lemma BuiltLabels(n: CrName, cr: Cr, kind: Kind)
    ensures var m := Build(n, cr, kind);
            && (m.key.kind == Deployment ==> m.key.ns == n.ns && DeploymentLabelled(m.obj, Labels(n.name)))
            && (m.key.kind == Service ==> m.key.ns == n.ns && ServiceSelects(m.obj, Labels(n.name)))
  {
  }

  lemma LabelledStep(s: System, names: string -> string, fault: Fault)
    requires Labelled(s, names) && !s.pc.Finished?
    ensures var objs := Tick(s.st, s.pc, fault).0.c.objs;
            && (forall ns :: DeploymentKey(ns) in objs ==>
              DeploymentLabelled(objs[DeploymentKey(ns)], Labels(names(ns))))
            && (forall ns :: ServiceKey(ns) in objs ==> ServiceSelects(objs[ServiceKey(ns)], Labels(names(ns))))
  {
    hide Build, Tick, Labels, DeploymentLabelled, ServiceSelects;
    var objs := Tick(s.st, s.pc, fault).0.c.objs;
    forall ns | DeploymentKey(ns) in objs ensures DeploymentLabelled(objs[DeploymentKey(ns)], Labels(names(ns))) {
      StepAdds(s.st, s.pc, fault, DeploymentKey(ns));
      if s.pc.Creating? {
        BuiltLabels(s.pc.p.n, s.pc.p.cr, s.pc.kind);
      }
    }
    forall ns | ServiceKey(ns) in objs ensures ServiceSelects(objs[ServiceKey(ns)], Labels(names(ns))) {
      StepAdds(s.st, s.pc, fault, ServiceKey(ns));
      if s.pc.Creating? {
        BuiltLabels(s.pc.p.n, s.pc.p.cr, s.pc.kind);
      }
    }
  }

  /** Whenever both exist, the service selects exactly the labels that the deployment puts on its pods, across
      crashes between the two creations and across any edits of specs. */
  lemma ServiceFindsPods(s: System, names: string -> string, actions: seq<Action>, ns: string)
    requires s.pc.Finished?
    requires forall ns :: DeploymentKey(ns) !in s.st.c.objs && ServiceKey(ns) !in s.st.c.objs
    requires Admitted(s, actions, (s, a) => OneName(names, s, a))
    ensures var objs := Run(s, actions).st.c.objs;
            DeploymentKey(ns) in objs && ServiceKey(ns) in objs ==>
              && objs[DeploymentKey(ns)].body.DeploymentBody? && objs[ServiceKey(ns)].body.ServiceBody?
              && objs[ServiceKey(ns)].body.selector == objs[DeploymentKey(ns)].body.podLabels
              && objs[ServiceKey(ns)].body.selector == objs[DeploymentKey(ns)].body.matchLabels
              && objs[ServiceKey(ns)].body.labels == objs[ServiceKey(ns)].body.selector
              && NamesResource(objs[ServiceKey(ns)].body.labels, names(ns))
  {
    var inv, ok := s => Labelled(s, names), (s, a) => OneName(names, s, a);
    forall s, a | inv(s) && ok(s, a) ensures inv(Apply(s, a)) {
      LabelledKept(s, names, a);
    }
    Induct(s, actions, inv, ok);
    LabelsTellNames(names(ns), names(ns));
  }

  /** The name of the resource for which the object at `k` was made, if it was made by a pass and is still there. */
  function Maker(s: System, k: Key, name: Option<string>, actions: seq<Action>): Option<string>
    decreases |actions|
  {
    if actions == [] then name else Maker(Apply(s, actions[0]), k, NewMaker(s, k, name, actions[0]), actions[1..])
  }

  function NewMaker(s: System, k: Key, name: Option<string>, a: Action): Option<string> {
    if k !in Apply(s, a).st.c.objs then None
    else if k !in s.st.c.objs && HasSnap(s.pc) then Some(s.pc.p.n.name)
    else name
  }

  /** Any resources, faults, crashes and edits; others may delete the two objects of the namespace, not write them. */
  predicate MadeByPasses(ns: string, s: System, a: Action) {
    a.Env? && a.edit.WriteObj? ==> a.edit.k != DeploymentKey(ns) && a.edit.k != ServiceKey(ns)
  }

  ghost predicate MadeFor(s: System, ns: string, deployment: Option<string>, service: Option<string>) {
    && (DeploymentKey(ns) in s.st.c.objs ==>
      deployment.Some? && DeploymentLabelled(s.st.c.objs[DeploymentKey(ns)], Labels(deployment.value)))
    && (ServiceKey(ns) in s.st.c.objs ==>
      service.Some? && ServiceSelects(s.st.c.objs[ServiceKey(ns)], Labels(service.value)))
  }

  lemma MadeForKept(s: System, ns: string, deployment: Option<string>, service: Option<string>, a: Action)
    requires MadeFor(s, ns, deployment, service) && MadeByPasses(ns, s, a)
    ensures MadeFor(
              Apply(s, a), ns, NewMaker(s, DeploymentKey(ns), deployment, a), NewMaker(s, ServiceKey(ns), service, a))
  {
    hide Build, Tick, Labels, DeploymentLabelled, ServiceSelects;
    var objs' := Apply(s, a).st.c.objs;
    if a.Step? && !s.pc.Finished? {
      if DeploymentKey(ns) in objs' {
        StepAdds(s.st, s.pc, a.fault, DeploymentKey(ns));
      }
      if ServiceKey(ns) in objs' {
        StepAdds(s.st, s.pc, a.fault, ServiceKey(ns));
      }
      if s.pc.Creating? {
        BuiltLabels(s.pc.p.n, s.pc.p.cr, s.pc.kind);
      }
    }
  }

  lemma {:induction false} MadeForRun(
    s: System, ns: string, deployment: Option<string>, service: Option<string>, actions: seq<Action>)
    requires MadeFor(s, ns, deployment, service) && Admitted(s, actions, (s, a) => MadeByPasses(ns, s, a))
    ensures MadeFor(
              Run(s, actions), ns,
              Maker(s, DeploymentKey(ns), deployment, actions), Maker(s, ServiceKey(ns), service, actions))
    decreases |actions|
  {
    hide MadeFor, MadeByPasses, NewMaker;
    if actions != [] {
      MadeForKept(s, ns, deployment, service, actions[0]);
      MadeForRun(
        Apply(s, actions[0]), ns, NewMaker(s, DeploymentKey(ns), deployment, actions[0]),
        NewMaker(s, ServiceKey(ns), service, actions[0]), actions[1..]);
    }
  }

  /** Exactly when the service finds the pods, with any number of resources in the namespace: if and only if the
      deployment and the service were made for resources of the same name. Both carry the labels that name it. */
  lemma ServiceFindsPodsIff(s: System, actions: seq<Action>, ns: string)
    requires DeploymentKey(ns) !in s.st.c.objs && ServiceKey(ns) !in s.st.c.objs
    requires Admitted(s, actions, (s, a) => MadeByPasses(ns, s, a))
    ensures var objs := Run(s, actions).st.c.objs;
            DeploymentKey(ns) in objs && ServiceKey(ns) in objs ==>
              && objs[DeploymentKey(ns)].body.DeploymentBody? && objs[ServiceKey(ns)].body.ServiceBody?
              && objs[DeploymentKey(ns)].body.podLabels == objs[DeploymentKey(ns)].body.matchLabels
              && objs[ServiceKey(ns)].body.labels == objs[ServiceKey(ns)].body.selector
              && Maker(s, DeploymentKey(ns), None, actions).Some? && Maker(s, ServiceKey(ns), None, actions).Some?
              && NamesResource(
                objs[DeploymentKey(ns)].body.podLabels, Maker(s, DeploymentKey(ns), None, actions).value)
              && NamesResource(objs[ServiceKey(ns)].body.labels, Maker(s, ServiceKey(ns), None, actions).value)
              && (objs[ServiceKey(ns)].body.selector == objs[DeploymentKey(ns)].body.podLabels <==>
                Maker(s, DeploymentKey(ns), None, actions) == Maker(s, ServiceKey(ns), None, actions))
  {
    hide Labels, Maker;
    MadeForRun(s, ns, None, None, actions);
    var d, v := Maker(s, DeploymentKey(ns), None, actions), Maker(s, ServiceKey(ns), None, actions);
    if d.Some? && v.Some? {
      LabelsTellNames(d.value, v.value);
      LabelsTellNames(v.value, d.value);
    }
  }

  // ---------------------------------------------------------------- what is stored under a key

  /** The object is of the kind its key says. */
  predicate Fits(k: Key, o: Object) {
    match k.kind
    case Pvc => o.body.PvcBody?
    case ServiceAccount => o.body.ServiceAccountBody?
    case ClusterRole => o.body.RulesBody?
    case Role => o.body.RulesBody?
    case ClusterRoleBinding => o.body.BindingBody?
    case RoleBinding => o.body.BindingBody?
    case Deployment => o.body.DeploymentBody?
    case Service => o.body.ServiceBody?
    case StorageClass => o.body.StorageClassBody?
  }

  lemma BuiltFits(n: CrName, cr: Cr, kind: Kind)
    ensures var m := Build(n, cr, kind); m.key.kind == kind && Fits(m.key, m.obj)
  {
  }

  ghost predicate AllFit(s: System) {
    forall k :: k in s.st.c.objs ==> Fits(k, s.st.c.objs[k])
  }

  predicate WritesFit(s: System, a: Action) {
    a.Env? && a.edit.WriteObj? ==> Fits(a.edit.k, a.edit.o)
  }

  lemma AllFitKept(s: System, a: Action)
    requires AllFit(s) && WritesFit(s, a)
    ensures AllFit(Apply(s, a))
  {
    hide Build, Tick, Fits;
    if a.Step? && !s.pc.Finished? {
      forall k | k in Apply(s, a).st.c.objs ensures Fits(k, Apply(s, a).st.c.objs[k]) {
        StepAdds(s.st, s.pc, a.fault, k);
        if s.pc.Creating? {
          BuiltFits(s.pc.p.n, s.pc.p.cr, s.pc.kind);
        }
      }
    }
  }

  /** Over all runs the operator stores under every key an object of the key's kind. */
  lemma FitsOverRuns(s: System, actions: seq<Action>)
    requires AllFit(s) && Admitted(s, actions, WritesFit)
    ensures AllFit(Run(s, actions))
  {
    forall s, a | AllFit(s) && WritesFit(s, a) ensures AllFit(Apply(s, a)) {
      AllFitKept(s, a);
    }
    Induct(s, actions, AllFit, WritesFit);
  }

  /** Rules and storage classes are the same for all resources, and the two roles differ. */
  lemma ConstantBodies(n: CrName, a: Cr, m: CrName, b: Cr)
    ensures Build(n, a, ClusterRole).obj.body == Build(m, b, ClusterRole).obj.body
    ensures Build(n, a, Role).obj.body == Build(m, b, Role).obj.body
    ensures Build(n, a, StorageClass).obj.body == Build(m, b, StorageClass).obj.body
    ensures Build(n, a, ClusterRole).obj.body != Build(m, b, Role).obj.body
  {
  }

  // ---------------------------------------------------------------- what is left after a resource

  /** The keys that passes for `n` have created objects under. */
  function Created(s: System, n: CrName, actions: seq<Action>): set<Key>
    decreases |actions|
  {
    if actions == [] then {}
    else CreatedBy(s, n, actions[0]) + Created(Apply(s, actions[0]), n, actions[1..])
  }

  function CreatedBy(s: System, n: CrName, a: Action): set<Key> {
    if a.Step? && s.pc.Creating? && s.pc.p.n == n then Apply(s, a).st.c.objs.Keys - s.st.c.objs.Keys else {}
  }

  /** Garbage collection of everything owned by a uid that is gone. */
  function Collected(objs: map<Key, Object>, uid: string): map<Key, Object> {
    map k | k in objs && objs[k].owner != Some(uid) :: objs[k]
  }

  /** `n` is the only resource of its namespace, keeps its identity, and nobody else writes objects there. */
  predicate OnlyTenant(n: CrName, uid: string, s: System, a: Action) {
    match a
    case Start(m) => m.ns != "" && (m.ns == n.ns ==> m == n)
    case Env(WriteCr(m, cr)) => m == n ==> cr.uid == uid
    case Env(WriteObj(k, _)) => k.ns != n.ns
    case _ => true
  }

  ghost predicate Owned(s: System, n: CrName, uid: string, created: set<Key>) {
    && (n in s.st.c.crs ==> s.st.c.crs[n].uid == uid)
    && (s.pc.Fetching? ==> s.pc.n.ns != "" && (s.pc.n.ns == n.ns ==> s.pc.n == n))
    && (HasSnap(s.pc) ==> s.pc.p.n.ns != "" && (s.pc.p.n.ns == n.ns ==> s.pc.p.n == n && s.pc.p.cr.uid == uid))
    && (forall k :: k in created ==> k.ns == n.ns || k == ROLE_KEY || k == BINDING_KEY || k.kind == StorageClass)
    && (forall k :: k in created && k.ns == n.ns && k in s.st.c.objs ==> s.st.c.objs[k].owner == Some(uid))
  }

  /** An object is owned by the resource it was built for exactly if it is in its namespace. */
  lemma BuiltOwner(n: CrName, cr: Cr, kind: Kind)
    requires n.ns != ""
    ensures var m := Build(n, cr, kind);
            && (m.key.ns == n.ns <==> m.obj.owner == Some(cr.uid))
            && (m.key.ns == n.ns || m.key == ROLE_KEY || m.key == BINDING_KEY || m.key.kind == StorageClass)
            && (m.key.ns == n.ns || m.key.ns == "")
  {
  }

  lemma IdentityKept(s: System, n: CrName, uid: string, a: Action)
    requires Versioned(s) && OnlyTenant(n, uid, s, a) && Owned(s, n, uid, {})
    ensures var s' := Apply(s, a);
            && (n in s'.st.c.crs ==> s'.st.c.crs[n].uid == uid)
            && (s'.pc.Fetching? ==> s'.pc.n.ns != "" && (s'.pc.n.ns == n.ns ==> s'.pc.n == n))
            && (HasSnap(s'.pc) ==>
              s'.pc.p.n.ns != "" && (s'.pc.p.n.ns == n.ns ==> s'.pc.p.n == n && s'.pc.p.cr.uid == uid))
  {
    if a.Step? && !s.pc.Finished? {
      NextName(s.st, s.pc, a.fault);
      UidKept(s.st, CallOf(s.pc), n, uid);
    }
  }

  lemma UidKept(st: Store, call: Call, n: CrName, uid: string)
    requires n in st.c.crs ==> st.c.crs[n].uid == uid
    requires call.PutCr? && call.n == n ==> call.cr.uid == uid
    ensures var c' := Effect(st, call).0.c; n in c'.crs ==> c'.crs[n].uid == uid
  {
  }

  lemma ObjectsKept(s: System, n: CrName, uid: string, created: set<Key>, a: Action)
    requires n.ns != "" && OnlyTenant(n, uid, s, a) && Owned(s, n, uid, created)
    ensures var objs', created' := Apply(s, a).st.c.objs, created + CreatedBy(s, n, a);
            && (forall k :: k in created' ==>
              k.ns == n.ns || k == ROLE_KEY || k == BINDING_KEY || k.kind == StorageClass)
            && (forall k :: k in created' && k.ns == n.ns && k in objs' ==> objs'[k].owner == Some(uid))
  {
    if a.Step? && !s.pc.Finished? {
      var objs' := Tick(s.st, s.pc, a.fault).0.c.objs;
      if s.pc.Creating? {
        BuiltOwner(s.pc.p.n, s.pc.p.cr, s.pc.kind);
      }
      forall k | k in objs' && k !in s.st.c.objs
        ensures k.ns == n.ns ==> s.pc.Creating? && s.pc.p.n == n && objs'[k].owner == Some(uid)
        ensures s.pc.Creating? && s.pc.p.n == n ==>
                  k.ns == n.ns || k == ROLE_KEY || k == BINDING_KEY || k.kind == StorageClass
      {
        StepAdds(s.st, s.pc, a.fault, k);
      }
      forall k | k in objs' && k in s.st.c.objs ensures objs'[k] == s.st.c.objs[k] {
        StepAdds(s.st, s.pc, a.fault, k);
      }
    }
  }

  lemma {:induction false} OwnedRun(s: System, n: CrName, uid: string, created: set<Key>, actions: seq<Action>)
    requires n.ns != "" && Versioned(s) && Owned(s, n, uid, created)
    requires Admitted(s, actions, (s, a) => OnlyTenant(n, uid, s, a))
    ensures Versioned(Run(s, actions)) && Owned(Run(s, actions), n, uid, created + Created(s, n, actions))
    decreases |actions|
  {
    if actions == [] {
      assert created + {} == created;
    } else {
      var a, s1 := actions[0], Apply(s, actions[0]);
      VersionedKept(s, a);
      IdentityKept(s, n, uid, a);
      ObjectsKept(s, n, uid, created, a);
      OwnedRun(s1, n, uid, created + CreatedBy(s, n, a), actions[1..]);
      assert (created + CreatedBy(s, n, a)) + Created(s1, n, actions[1..]) == created + Created(s, n, actions);
    }
  }
}
