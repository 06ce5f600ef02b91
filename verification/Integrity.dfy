/** Relations between the objects the operator creates, in every state of every run. */
module Integrity {
  import opened Objects
  import opened Protocol
  import opened Convergence
  import opened Faults

  // ---------------------------------------------------------------- references

  predicate IsDeployment(k: Key) {
    k.kind == Deployment && k.name == DEPLOYMENT_NAME
  }

  predicate IsRoleBinding(k: Key) {
    k.kind == RoleBinding && k.name == ROLE_NAME
  }

  /** It is a deployment; the account of its pods and the claim they mount exist. */
  predicate DeploymentRefs(c: Cluster, k: Key)
    requires k in c.objs
  {
    && c.objs[k].body.DeploymentBody?
    && c.objs[k].body.account == AccountKey(k.ns) && AccountKey(k.ns) in c.objs
    && (c.objs[k].body.volume.ClaimVolume? ==> Key(Pvc, k.ns, c.objs[k].body.volume.claim) in c.objs)
  }

  /** It is a binding, of the namespace's account to the namespace's role, and both exist. */
  predicate RoleBindingRefs(c: Cluster, k: Key)
    requires k in c.objs
  {
    && c.objs[k].body.BindingBody?
    && c.objs[k].body.subject == AccountKey(k.ns) && AccountKey(k.ns) in c.objs
    && c.objs[k].body.roleRef == Key(Role, k.ns, ROLE_NAME) && Key(Role, k.ns, ROLE_NAME) in c.objs
  }

  /** Accounts, claims and roles that operator-made objects name exist; the role of the cluster role binding apart. */
  ghost predicate ObjectRefs(c: Cluster) {
    && (forall k :: k in c.objs && IsDeployment(k) ==> DeploymentRefs(c, k))
    && (forall k :: k in c.objs && IsRoleBinding(k) ==> RoleBindingRefs(c, k))
    && (BINDING_KEY in c.objs ==>
      && c.objs[BINDING_KEY].body.BindingBody? && c.objs[BINDING_KEY].body.subject.kind == ServiceAccount
      && c.objs[BINDING_KEY].body.subject in c.objs && c.objs[BINDING_KEY].body.roleRef == ROLE_KEY)
  }

  /** A finalization of `n` that has begun or is due. */
  predicate Unfinished(c: Cluster, n: CrName) {
    n in c.crs && Finalizes(c.crs[n])
  }

  /** The role of the cluster role binding may be missing only while some finalization is unfinished. */
  ghost predicate RoleRef(c: Cluster) {
    BINDING_KEY in c.objs && ROLE_KEY !in c.objs ==> exists n :: Unfinished(c, n)
  }

  ghost predicate References(c: Cluster) {
    ObjectRefs(c) && RoleRef(c)
  }

  // ---------------------------------------------------------------- claims, accounts and roles, under all faults

  /** What the pass relies on when it builds references. */
  predicate ClaimRelied(s: System) {
    (s.pc.Reading? || s.pc.Creating?) && KindRank(s.pc.kind) < 8 && s.pc.p.cr.spec.hostPathDir == "" ==>
      LookupKey(s.pc.p.n, s.pc.p.cr.spec, Pvc) in s.st.c.objs
  }

  predicate AccountRelied(s: System) {
    s.pc.Reading? || s.pc.Creating? ==>
      && (KindRank(s.pc.kind) < 7 ==> AccountKey(s.pc.p.n.ns) in s.st.c.objs)
      && (KindRank(s.pc.kind) < 4 ==> Key(Role, s.pc.p.n.ns, ROLE_NAME) in s.st.c.objs)
  }

  /** Others create no deployments and bindings under the operator's names, and delete no claim, account or role. They
      may do anything else, to finalizers and to the cluster role too. */
  predicate Careful(edit: Edit) {
    match edit
    case WriteObj(k, _) => !IsDeployment(k) && !IsRoleBinding(k) && k != BINDING_KEY
    case RemoveObj(k) => k.kind != Pvc && k.kind != ServiceAccount && k.kind != Role
    case _ => true
  }

  /** Any passes with any faults, and others as described. */
  predicate AmongCareful(s: System, a: Action) {
    a.Env? ==> Careful(a.edit)
  }

  ghost predicate ObjectsSound(s: System) {
    Shaped(s.pc) && ClaimRelied(s) && AccountRelied(s) && ObjectRefs(s.st.c)
  }

  lemma GrownRefs(c: Cluster, k: Key, o: Object)
    requires ObjectRefs(c) && !IsDeployment(k) && !IsRoleBinding(k) && k != BINDING_KEY
    ensures ObjectRefs(c.(objs := c.objs[k := o]))
  {
    var c' := c.(objs := c.objs[k := o]);
    forall d | d in c'.objs && IsDeployment(d) ensures DeploymentRefs(c', d) {
      assert DeploymentRefs(c, d);
    }
    forall d | d in c'.objs && IsRoleBinding(d) ensures RoleBindingRefs(c', d) {
      assert RoleBindingRefs(c, d);
    }
  }

  lemma ShrunkRefs(c: Cluster, k: Key)
    requires ObjectRefs(c) && k.kind != Pvc && k.kind != ServiceAccount && k.kind != Role
    ensures ObjectRefs(c.(objs := c.objs - {k}))
  {
    var c' := c.(objs := c.objs - {k});
    forall d | d in c'.objs && IsDeployment(d) ensures DeploymentRefs(c', d) {
      assert DeploymentRefs(c, d);
    }
    forall d | d in c'.objs && IsRoleBinding(d) ensures RoleBindingRefs(c', d) {
      assert RoleBindingRefs(c, d);
    }
  }

  lemma SameRefs(c: Cluster, c': Cluster)
    requires ObjectRefs(c) && c'.objs == c.objs
    ensures ObjectRefs(c')
  {
    forall d | d in c'.objs && IsDeployment(d) ensures DeploymentRefs(c', d) {
      assert DeploymentRefs(c, d);
    }
    forall d | d in c'.objs && IsRoleBinding(d) ensures RoleBindingRefs(c', d) {
      assert RoleBindingRefs(c, d);
    }
  }

  lemma EditRefs(s: System, edit: Edit)
    requires ObjectsSound(s) && Careful(edit)
    ensures ObjectsSound(Apply(s, Env(edit)))
  {
    hide Build, ObjectRefs;
    var c' := ApplyEdit(s.st, edit).c;
    match edit
    case WriteObj(k, o) =>
      if c' != s.st.c { GrownRefs(s.st.c, k, o); }
    case RemoveObj(k) =>
      if c' != s.st.c { ShrunkRefs(s.st.c, k); }
    case _ =>
      SameRefs(s.st.c, c');
  }

  lemma CreationRefs(s: System)
    requires ObjectsSound(s) && s.pc.Creating? && Build(s.pc.p.n, s.pc.p.cr, s.pc.kind).key !in s.st.c.objs
    ensures var m := Build(s.pc.p.n, s.pc.p.cr, s.pc.kind); ObjectRefs(s.st.c.(objs := s.st.c.objs[m.key := m.obj]))
  {
    var c, m := s.st.c, Build(s.pc.p.n, s.pc.p.cr, s.pc.kind);
    var c' := c.(objs := c.objs[m.key := m.obj]);
    forall d | d in c'.objs && IsDeployment(d) ensures DeploymentRefs(c', d) {
      assert d != m.key ==> DeploymentRefs(c, d);
    }
    forall d | d in c'.objs && IsRoleBinding(d) ensures RoleBindingRefs(c', d) {
      assert d != m.key ==> RoleBindingRefs(c, d);
    }
  }

  lemma EffectRefs(s: System)
    requires ObjectsSound(s) && !s.pc.Finished?
    ensures ObjectRefs(Effect(s.st, CallOf(s.pc)).0.c)
  {
    hide Build, ObjectRefs, LookupKey, ClaimRelied, AccountRelied;
    var c' := Effect(s.st, CallOf(s.pc)).0.c;
    if s.pc.Creating? {
      if Build(s.pc.p.n, s.pc.p.cr, s.pc.kind).key !in s.st.c.objs {
        CreationRefs(s);
      }
    } else if (s.pc.DeletingRole? || s.pc.DeletingBinding?) && c' != s.st.c {
      ShrunkRefs(s.st.c, if s.pc.DeletingRole? then ROLE_KEY else BINDING_KEY);
    } else if c' != s.st.c {
      SameRefs(s.st.c, c');
    }
  }

  /** Get-or-create finds or makes the key it looks up. */
  lemma Ensures(st: Store, pc: Pc, fault: Fault)
    requires (pc.Reading? || pc.Creating?) && Shaped(pc)
    ensures var (st', pc') := Tick(st, pc, fault);
            && st.c.objs.Keys <= st'.c.objs.Keys
            && (HasSnap(pc') ==>
              || (pc'.Creating? && pc'.p == pc.p && pc'.kind == pc.kind)
              || (pc' == After(pc.p, pc.kind) && LookupKey(pc.p.n, pc.p.cr.spec, pc.kind) in st'.c.objs))
  {
    hide BuildDeployment, BuildPvc;
    if pc.Creating? {
      BuiltWhereLookedUp(pc.p.n, pc.p.cr, pc.kind);
    }
  }

  lemma ManagersRely(s: System, fault: Fault)
    requires (s.pc.Reading? || s.pc.Creating?) && Shaped(s.pc)
    ensures ClaimRelied(s) ==> ClaimRelied(Apply(s, Step(fault)))
    ensures AccountRelied(s) ==> AccountRelied(Apply(s, Step(fault)))
  {
    hide Build, Tick;
    Ensures(s.st, s.pc, fault);
  }

  lemma OthersRely(s: System, fault: Fault)
    requires !s.pc.Reading? && !s.pc.Creating?
    ensures ClaimRelied(Apply(s, Step(fault))) && AccountRelied(Apply(s, Step(fault)))
  {
    hide Build, LookupKey;
  }

  lemma ObjectsSoundKept(s: System, a: Action)
    requires ObjectsSound(s) && AmongCareful(s, a)
    ensures ObjectsSound(Apply(s, a))
  {
    hide ObjectRefs, ClaimRelied, AccountRelied, Careful, Tick;
    ShapedKept(s, a);
    match a
    case Env(edit) => EditRefs(s, edit);
    case Step(fault) =>
      if s.pc.Reading? || s.pc.Creating? {
        ManagersRely(s, fault);
      } else {
        OthersRely(s, fault);
      }
      if !s.pc.Finished? {
        EffectRefs(s);
        TickStore(s.st, s.pc, fault);
      }
    case _ =>
      NothingRelied(Apply(s, a));
  }

  lemma NothingRelied(s: System)
    ensures !s.pc.Reading? && !s.pc.Creating? ==> ClaimRelied(s) && AccountRelied(s)
  {
  }

  // ---------------------------------------------------------------- the role of the binding

  /** What the pass relies on when it creates the binding and deletes the role. */
  predicate RoleRelied(s: System) {
    && ((s.pc.Reading? || s.pc.Creating?) && s.pc.kind == ClusterRoleBinding ==> ROLE_KEY in s.st.c.objs)
    && (HasSnap(s.pc) && Finalizes(s.pc.p.cr) ==> Unfinished(s.st.c, s.pc.p.n))
  }

  /** Besides, others neither delete the cluster role nor take the finalizer off a resource under deletion. */
  predicate Considerate(c: Cluster, edit: Edit) {
    && Careful(edit)
    && (edit.RemoveObj? ==> edit.k.kind != ClusterRole)
    && (edit.WriteCr? && Unfinished(c, edit.n) ==> Finalizes(edit.cr))
  }

  predicate AmongConsiderate(s: System, a: Action) {
    a.Env? ==> Considerate(s.st.c, a.edit)
  }

  /** The action completes the last unfinished finalization although the binding has been left without its role. */
  ghost predicate Dangles(s: System, a: Action) {
    && a.Step? && !a.fault.FailBefore? && s.pc.RemovingFinalizer? && Current(s.st, s.pc.p.n, s.pc.p.rev)
    && BINDING_KEY in s.st.c.objs && ROLE_KEY !in s.st.c.objs
    && forall m :: Unfinished(s.st.c, m) ==> m == s.pc.p.n
  }

  ghost predicate RoleSound(s: System) {
    Versioned(s) && Shaped(s.pc) && RoleRelied(s) && RoleRef(s.st.c)
  }

  lemma UnfinishedStays(c: Cluster, c': Cluster)
    requires RoleRef(c) && (forall n :: Unfinished(c, n) ==> Unfinished(c', n))
    requires BINDING_KEY in c'.objs && ROLE_KEY !in c'.objs ==> BINDING_KEY in c.objs && ROLE_KEY !in c.objs
    ensures RoleRef(c')
  {
  }

  lemma EditUnfinished(st: Store, edit: Edit, n: CrName)
    requires Considerate(st.c, edit)
    ensures Unfinished(st.c, n) ==> Unfinished(ApplyEdit(st, edit).c, n)
  {
  }

  lemma EditRoleSound(s: System, edit: Edit)
    requires RoleSound(s) && Considerate(s.st.c, edit)
    ensures RoleSound(Apply(s, Env(edit)))
  {
    VersionedKept(s, Env(edit));
    hide Versioned, Shaped, RoleRef, Unfinished;
    var c' := ApplyEdit(s.st, edit).c;
    forall n ensures Unfinished(s.st.c, n) ==> Unfinished(c', n) {
      EditUnfinished(s.st, edit, n);
    }
    UnfinishedStays(s.st.c, c');
  }

  lemma ReadingRelies(s: System, fault: Fault)
    requires (s.pc.Reading? || s.pc.Creating?) && Shaped(s.pc) && RoleRelied(s)
    ensures RoleRelied(Apply(s, Step(fault)))
  {
    hide Build, Tick;
    Ensures(s.st, s.pc, fault);
    OnlyUpdatesWrite(s.st, s.pc, fault);
  }

  lemma OtherSnaps(s: System, fault: Fault)
    requires !s.pc.Finished? && !s.pc.Reading? && !s.pc.Creating?
    ensures var pc' := Tick(s.st, s.pc, fault).1;
            && ((pc'.Reading? || pc'.Creating?) ==> pc'.kind != ClusterRoleBinding)
            && (HasSnap(pc') ==>
              if s.pc.Fetching? then pc'.p.n in s.st.c.crs && pc'.p.cr == s.st.c.crs[pc'.p.n]
              else HasSnap(s.pc) && !Updates(s.pc) && pc'.p == s.pc.p)
  {
    hide Build, LookupKey;
  }

  lemma StepRelies(s: System, fault: Fault)
    requires Shaped(s.pc) && RoleRelied(s)
    ensures RoleRelied(Apply(s, Step(fault)))
  {
    hide Tick, Shaped;
    if s.pc.Reading? || s.pc.Creating? {
      ReadingRelies(s, fault);
    } else if !s.pc.Finished? {
      OtherSnaps(s, fault);
      if !Updates(s.pc) {
        OnlyUpdatesWrite(s.st, s.pc, fault);
      }
    }
  }

  lemma UpdateUnfinished(s: System, n: CrName)
    requires Versioned(s) && Shaped(s.pc) && Updates(s.pc)
    ensures var c' := Effect(s.st, CallOf(s.pc)).0.c;
            && c'.objs == s.st.c.objs
            && (Unfinished(s.st.c, n) && !(s.pc.RemovingFinalizer? && n == s.pc.p.n) ==> Unfinished(c', n))
            && (s.pc.RemovingFinalizer? && Unfinished(c', n) ==>
              Unfinished(s.st.c, n) && (Current(s.st, s.pc.p.n, s.pc.p.rev) ==> n != s.pc.p.n))
            && (s.pc.RemovingFinalizer? && !Current(s.st, s.pc.p.n, s.pc.p.rev) ==> c' == s.st.c)
  {
    hide Build, LookupKey;
    if s.pc.RemovingFinalizer? {
      WithoutRemoves(s.pc.p.cr.finalizers, FINALIZER);
    }
  }

  /** Exactly the removal of the last finalizer breaks the reference. */
  lemma RemovalRoleRef(s: System)
    requires RoleSound(s) && s.pc.RemovingFinalizer?
    ensures RoleRef(Effect(s.st, CallOf(s.pc)).0.c) <==> !Dangles(s, Step(Fine))
  {
    hide Versioned, Shaped, Unfinished, Effect, CallOf;
    var c' := Effect(s.st, CallOf(s.pc)).0.c;
    forall n
      ensures Unfinished(s.st.c, n) && n != s.pc.p.n ==> Unfinished(c', n)
      ensures Unfinished(c', n) ==>
                Unfinished(s.st.c, n) && (Current(s.st, s.pc.p.n, s.pc.p.rev) ==> n != s.pc.p.n)
    {
      UpdateUnfinished(s, n);
    }
    UpdateUnfinished(s, s.pc.p.n);
  }

  lemma QuietRoleRef(s: System)
    requires RoleSound(s) && !s.pc.Finished? && !s.pc.RemovingFinalizer?
    ensures RoleRef(Effect(s.st, CallOf(s.pc)).0.c)
  {
    hide Versioned, Shaped, Effect, CallOf;
    var c' := Effect(s.st, CallOf(s.pc)).0.c;
    forall n ensures Unfinished(s.st.c, n) ==> Unfinished(c', n) {
      if Updates(s.pc) {
        UpdateUnfinished(s, n);
      } else {
        QuietCrs(s.st, s.pc);
      }
    }
    if s.pc.DeletingRole? {
      assert Unfinished(s.st.c, s.pc.p.n) by {
        CleanupFinalizes(s.pc);
      }
    } else {
      RolePairKept(s);
      UnfinishedStays(s.st.c, c');
    }
  }

  lemma CleanupFinalizes(pc: Pc)
    requires InCleanup(pc) && Shaped(pc)
    ensures Finalizes(pc.p.cr)
  {
  }

  lemma QuietCrs(st: Store, pc: Pc)
    requires !pc.Finished? && !Updates(pc)
    ensures Effect(st, CallOf(pc)).0.c.crs == st.c.crs
  {
    OnlyUpdatesWrite(st, pc, Fine);
  }

  lemma RolePairKept(s: System)
    requires RoleRelied(s) && !s.pc.Finished? && !s.pc.DeletingRole?
    ensures var objs := Effect(s.st, CallOf(s.pc)).0.c.objs;
            BINDING_KEY in objs && ROLE_KEY !in objs ==> BINDING_KEY in s.st.c.objs && ROLE_KEY !in s.st.c.objs
  {
    hide LookupKey;
  }

  /** One action keeps the reference if and only if it is not such a removal. */
  lemma RoleSoundStep(s: System, a: Action)
    requires RoleSound(s) && AmongConsiderate(s, a)
    ensures RoleRef(Apply(s, a).st.c) <==> !Dangles(s, a)
    ensures !Dangles(s, a) ==> RoleSound(Apply(s, a))
  {
    hide Tick, RoleRef, Versioned, Shaped, Considerate;
    VersionedKept(s, a);
    ShapedKept(s, a);
    match a
    case Env(edit) => EditRoleSound(s, edit);
    case Step(fault) =>
      StepRelies(s, fault);
      if !s.pc.Finished? {
        TickStore(s.st, s.pc, fault);
        if s.pc.RemovingFinalizer? {
          RemovalRoleRef(s);
        } else {
          QuietRoleRef(s);
        }
      }
    case _ =>
  }

  // ---------------------------------------------------------------- the theorems

  /** Every state of the run has the property. */
  ghost predicate Throughout(s: System, actions: seq<Action>, p: Cluster -> bool)
    decreases |actions|
  {
    p(s.st.c) && (actions != [] ==> Throughout(Apply(s, actions[0]), actions[1..], p))
  }

  lemma {:induction false} SoundThroughout(s: System, actions: seq<Action>)
    requires ObjectsSound(s) && Admitted(s, actions, AmongCareful)
    ensures Throughout(s, actions, ObjectRefs)
    decreases |actions|
  {
    hide ObjectsSound, AmongCareful;
    assert ObjectRefs(s.st.c) by {
      SoundHasRefs(s);
    }
    if actions != [] {
      ObjectsSoundKept(s, actions[0]);
      SoundThroughout(Apply(s, actions[0]), actions[1..]);
    }
  }

  lemma SoundHasRefs(s: System)
    requires ObjectsSound(s)
    ensures ObjectRefs(s.st.c)
  {
  }

  /** Under any faults, in every state, whatever others do to resources, finalizers and the cluster role: what
      deployments, role bindings and the subject of the cluster role binding name exists. */
  lemma ObjectReferences(s: System, actions: seq<Action>)
    requires s.pc.Finished? && ObjectRefs(s.st.c) && Admitted(s, actions, AmongCareful)
    ensures Throughout(s, actions, ObjectRefs)
  {
    SoundThroughout(s, actions);
  }

  /** Under any faults: the binding is never without its role outside a finalization, if and only if no action
      completes the last one while it is. */
  lemma {:induction false} RoleReference(s: System, actions: seq<Action>)
    requires RoleSound(s) && Admitted(s, actions, AmongConsiderate)
    ensures Throughout(s, actions, RoleRef) <==> Admitted(s, actions, (s, a) => !Dangles(s, a))
    decreases |actions|
  {
    hide Versioned, Shaped, RoleRelied, AmongConsiderate, Dangles, RoleRef;
    if actions != [] {
      RoleSoundStep(s, actions[0]);
      if !Dangles(s, actions[0]) {
        RoleReference(Apply(s, actions[0]), actions[1..]);
      }
    }
  }

  /** Referential integrity in every intermediate state of every run, after any crash and under any faults, exactly:
      all references of all objects hold throughout, if and only if no action completes the last unfinished
      finalization while the cluster role binding is there without its role. */
  lemma ReferencesOverRuns(s: System, actions: seq<Action>)
    requires Bounded(s.st) && s.pc.Finished? && References(s.st.c) && Admitted(s, actions, AmongConsiderate)
    ensures Throughout(s, actions, ObjectRefs)
    ensures Throughout(s, actions, References) <==> Admitted(s, actions, (s, a) => !Dangles(s, a))
  {
    hide ObjectRefs, RoleRef, Dangles;
    ConsiderateIsCareful(s, actions);
    ObjectReferences(s, actions);
    RoleReference(s, actions);
    BothThroughout(s, actions);
  }

  lemma {:induction false} ConsiderateIsCareful(s: System, actions: seq<Action>)
    requires Admitted(s, actions, AmongConsiderate)
    ensures Admitted(s, actions, AmongCareful)
    decreases |actions|
  {
    if actions != [] {
      ConsiderateIsCareful(Apply(s, actions[0]), actions[1..]);
    }
  }

  lemma {:induction false} BothThroughout(s: System, actions: seq<Action>)
    ensures Throughout(s, actions, References) <==>
            Throughout(s, actions, ObjectRefs) && Throughout(s, actions, RoleRef)
    decreases |actions|
  {
    hide ObjectRefs, RoleRef;
    if actions != [] {
      BothThroughout(Apply(s, actions[0]), actions[1..]);
    }
  }

  /** The binding's Get in a cleanup does not miss a binding that is there. */
  predicate BindingFound(s: System, a: Action) {
    a.Step? && s.pc.ReadingBinding? && BINDING_KEY in s.st.c.objs ==> a.fault.Fine?
  }

  lemma BindingGone(s: System, a: Action)
    requires BindingFound(s, a) && AmongConsiderate(s, a) && (s.pc.RemovingFinalizer? ==> BINDING_KEY !in s.st.c.objs)
    ensures var s' := Apply(s, a); s'.pc.RemovingFinalizer? ==> BINDING_KEY !in s'.st.c.objs
  {
    hide Build, LookupKey;
  }

  /** If that Get never fails on a binding that is there, all references hold throughout. */
  lemma {:induction false} FoundBindingsSuffice(s: System, actions: seq<Action>)
    requires s.pc.RemovingFinalizer? ==> BINDING_KEY !in s.st.c.objs
    requires Admitted(s, actions, AmongConsiderate) && Admitted(s, actions, BindingFound)
    ensures Admitted(s, actions, (s, a) => !Dangles(s, a))
    decreases |actions|
  {
    hide AmongConsiderate, BindingFound, Tick;
    if actions != [] {
      BindingGone(s, actions[0]);
      FoundBindingsSuffice(Apply(s, actions[0]), actions[1..]);
    }
  }

  // ---------------------------------------------------------------- what deployments are made of

  predicate ClaimsStayed(s: System, a: Action) {
    a.Env? && a.edit.RemoveObj? ==> a.edit.k.kind != Pvc
  }

  lemma ClaimReliedKept(s: System, a: Action)
    requires Shaped(s.pc) && ClaimRelied(s) && ClaimsStayed(s, a)
    ensures Shaped(Apply(s, a).pc) && ClaimRelied(Apply(s, a))
  {
    hide Tick, Build;
    ShapedKept(s, a);
    hide Shaped;
    if a.Step? {
      if s.pc.Reading? || s.pc.Creating? {
        ManagersRely(s, a.fault);
      } else {
        OthersRely(s, a.fault);
      }
    }
  }

  /** Validation gates every run, from any store, whatever others make of the specs and of everything but claims:
      whenever the operator is about to create a deployment, it comes from a valid spec, mounts the host path exactly
      if the spec names one, and mounts otherwise a claim that exists at that moment. */
  lemma DeploymentsOverRuns(s: System, actions: seq<Action>)
    requires s.pc.Finished? && Admitted(s, actions, ClaimsStayed)
    requires Run(s, actions).pc.Creating? && Run(s, actions).pc.kind == Deployment
    ensures var now := Run(s, actions);
            var spec, m := now.pc.p.cr.spec, Build(now.pc.p.n, now.pc.p.cr, Deployment);
            && StorageOptions(spec) <= 1
            && (if spec.hostPathDir != "" then m.obj.body.volume == HostPathVolume(spec.hostPathDir)
                else m.obj.body.volume.ClaimVolume? && Key(Pvc, m.key.ns, m.obj.body.volume.claim) in now.st.c.objs)
  {
    var inv := (s: System) => Shaped(s.pc) && ClaimRelied(s);
    forall s, a | inv(s) && ClaimsStayed(s, a) ensures inv(Apply(s, a)) {
      ClaimReliedKept(s, a);
    }
    Induct(s, actions, inv, ClaimsStayed);
  }
}
