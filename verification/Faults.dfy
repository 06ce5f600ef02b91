/** Faults, crashes and retries do not change where the passes for one resource lead. */
module Faults {
  import opened Objects
  import opened Matching
  import opened Protocol
  import opened Convergence

  // ---------------------------------------------------------------- what a pass knows while nobody interferes

  /** The rank of the kind a pass is at; everything above is ensured. */
  function RankAt(pc: Pc): int {
    if pc.Reading? || pc.Creating? then KindRank(pc.kind) else -1
  }

  /** The required objects of ranks above `r` exist, the two cluster roles aside during cleanup. */
  ghost predicate Present(c: Cluster, n: CrName, cr: Cr, r: int, cleanup: bool) {
    forall k :: k in Required(n, cr) && r < KindRank(k.kind) && !(cleanup && k in {ROLE_KEY, BINDING_KEY}) ==>
      k in c.objs
  }

  /** Nothing is left to do for the SCC. */
  predicate SccDone(c: Cluster, ns: string) {
    c.crd ==> c.scc.Some? && Matched(c.scc.value.users, ns)
  }

  /** A pass for this resource ends with the cleanup. */
  predicate Finalizes(cr: Cr) {
    cr.deleting && FINALIZER in cr.finalizers
  }

  ghost predicate SccSync(st: Store, pc: Pc) {
    && (pc.ReadingScc? || pc.CreatingScc? || pc.AppendingScc? ==> st.c.crd)
    && (pc.CreatingScc? ==> st.c.scc.None?)
    && (pc.AppendingScc? ==>
      st.c.scc == Some(pc.seen) && st.sccRev == pc.rev && !Matched(pc.seen.users, pc.p.n.ns))
  }

  ghost predicate ObjSync(st: Store, pc: Pc) {
    && (PastScc(pc) ==>
      && Present(st.c, pc.p.n, pc.p.cr, RankAt(pc), InCleanup(pc))
      && (RankAt(pc) < 8 ==> !ClaimMissing(st.c, pc.p.n, pc.p.cr.spec)))
    && (pc.Reading? && pc.kind == Pvc ==> pc.p.cr.spec.hostPathDir == "")
    && (pc.Creating? ==> Managed(pc.p.cr.spec, pc.kind) && LookupKey(pc.p.n, pc.p.cr.spec, pc.kind) !in st.c.objs)
  }

  ghost predicate EndSync(st: Store, pc: Pc) {
    && (pc.AddingFinalizer? ==> !pc.p.cr.deleting && FINALIZER !in pc.p.cr.finalizers)
    && (InCleanup(pc) ==> pc.p.cr.deleting && FINALIZER in pc.p.cr.finalizers)
    && (pc.DeletingRole? ==> ROLE_KEY in st.c.objs)
    && (pc.DeletingBinding? ==> BINDING_KEY in st.c.objs)
  }

  ghost predicate Sync(s: System, n: CrName) {
    && (s.pc.Fetching? ==> s.pc.n == n)
    && (HasSnap(s.pc) ==>
      && s.pc.p.n == n
      && Holds(s.st, s.pc.p)
      && (Valid(s.pc.p.cr.spec) <==> !s.pc.WritingStatus?)
      && SccSync(s.st, s.pc) && ObjSync(s.st, s.pc) && EndSync(s.st, s.pc))
  }

  // ---------------------------------------------------------------- the admitted runs

  /** Only passes for `n`, with any faults and crashes, and nobody else writing. */
  predicate Alone(n: CrName, s: System, a: Action) {
    match a
    case Start(m) => m == n
    case Step(_) => true
    case Crash => true
    case Env(_) => false
  }

  /** Nothing that a deletion has to do is left. */
  predicate CleanedUp(c: Cluster, ns: string) {
    RolesAbsent(c) && SccDone(c, ns)
  }

  /** If the action takes the finalizer off, nothing is left to do. */
  predicate CleanRemoval(s: System, a: Action) {
    a.Step? && s.pc.RemovingFinalizer? && !a.fault.FailBefore? ==> CleanedUp(s.st.c, s.pc.p.n.ns)
  }

  /** A deletion of a resource that still carries somebody else's finalizer. */
  predicate Relapses(c: Cluster, n: CrName) {
    && n in c.crs && Valid(c.crs[n].spec) && !ClaimMissing(c, n, c.crs[n].spec)
    && c.crs[n].deleting && FINALIZER in c.crs[n].finalizers
    && Without(c.crs[n].finalizers, FINALIZER) != []
  }

  // ---------------------------------------------------------------- effects keep the closed form

  lemma RequiredSame(n: CrName, cr: Cr, cr': Cr)
    requires cr.spec == cr'.spec && cr.uid == cr'.uid
    ensures Required(n, cr) == Required(n, cr')
  {
  }

  lemma OwnEntryMatches(ns: string)
    ensures MatchesUser(Account(ns), ns)
  {
    CoversMatch(ns, ns);
  }

  lemma AppendMatches(scc: Scc, ns: string)
    ensures Matched(BuildScc(ns).users, ns) && Matched(Appended(scc, ns).users, ns)
  {
    OwnEntryMatches(ns);
    assert MatchesUser(BuildScc(ns).users[0], ns);
    assert MatchesUser(Appended(scc, ns).users[|scc.users|], ns);
  }

  lemma EnsuredSccDone(c: Cluster, ns: string)
    ensures SccDone(EnsuredScc(c, ns), ns)
    ensures SccDone(c, ns) <==> EnsuredScc(c, ns) == c
  {
    AppendMatches(if c.scc.Some? then c.scc.value else BuildScc(ns), ns);
  }

  lemma SccKeeps(c: Cluster, n: CrName)
    requires n in c.crs && Valid(c.crs[n].spec)
    ensures FullPass(EnsuredScc(c, n.ns), n) == FullPass(c, n)
  {
    EnsuredSccDone(c, n.ns);
    EnsuredSccDone(EnsuredScc(c, n.ns), n.ns);
    assert Ensured(EnsuredScc(c, n.ns), n, c.crs[n]) == Ensured(c, n, c.crs[n]);
  }

  lemma MergeAddition(c: Cluster, ns: string, required: map<Key, Object>, k: Key)
    requires k in required && k !in c.objs
    ensures Merged(c.(objs := c.objs[k := required[k]]), ns, required) == Merged(c, ns, required)
  {
    assert required + c.objs[k := required[k]] == required + c.objs;
  }

  lemma MergeDeletion(c: Cluster, ns: string, required: map<Key, Object>, k: Key)
    requires k in {ROLE_KEY, BINDING_KEY}
    ensures WithoutRoles(Merged(c.(objs := c.objs - {k}), ns, required)) == WithoutRoles(Merged(c, ns, required))
  {
    assert (required + (c.objs - {k})) - {ROLE_KEY, BINDING_KEY} == (required + c.objs) - {ROLE_KEY, BINDING_KEY};
  }

  lemma MergeAll(c: Cluster, ns: string, required: map<Key, Object>)
    requires SccDone(c, ns) && ROLE_KEY !in c.objs && BINDING_KEY !in c.objs
    requires forall k :: k in required && k !in {ROLE_KEY, BINDING_KEY} ==> k in c.objs
    ensures WithoutRoles(Merged(c, ns, required)) == c
  {
    assert (required + c.objs) - {ROLE_KEY, BINDING_KEY} == c.objs;
  }

  lemma CreationKeeps(c: Cluster, n: CrName, kind: Kind)
    requires n in c.crs && Valid(c.crs[n].spec) && Managed(c.crs[n].spec, kind) && !ClaimMissing(c, n, c.crs[n].spec)
    requires Build(n, c.crs[n], kind).key !in c.objs
    ensures var m := Build(n, c.crs[n], kind); FullPass(c.(objs := c.objs[m.key := m.obj]), n) == FullPass(c, n)
  {
    var cr, m := c.crs[n], Build(n, c.crs[n], kind);
    RequiredBuild(n, cr, kind);
    MergeAddition(c, n.ns, Required(n, cr), m.key);
  }

  lemma RequiredBuild(n: CrName, cr: Cr, kind: Kind)
    requires Managed(cr.spec, kind)
    ensures var m := Build(n, cr, kind); m.key in Required(n, cr) && Required(n, cr)[m.key] == m.obj
  {
    BuiltWhereLookedUp(n, cr, kind);
    LookupKind(n, cr.spec, kind);
    RequiredMeaning(n, cr, Build(n, cr, kind).key);
  }

  lemma DeletionKeeps(c: Cluster, n: CrName, k: Key)
    requires n in c.crs && Valid(c.crs[n].spec) && c.crs[n].deleting && FINALIZER in c.crs[n].finalizers
    requires k in {ROLE_KEY, BINDING_KEY} && !ClaimMissing(c, n, c.crs[n].spec)
    ensures FullPass(c.(objs := c.objs - {k}), n) == FullPass(c, n)
  {
    MergeDeletion(c, n.ns, Required(n, c.crs[n]), k);
  }

  lemma MergeStored(c: Cluster, n: CrName, cr: Cr, required: map<Key, Object>)
    requires !cr.deleting
    ensures Stored(Merged(Stored(c, n, cr), n.ns, required), n, cr) == Stored(Merged(c, n.ns, required), n, cr)
  {
    assert c.crs[n := cr][n := cr] == c.crs[n := cr];
  }

  lemma AdditionKeeps(c: Cluster, n: CrName, cr': Cr)
    requires n in c.crs && Valid(c.crs[n].spec) && !c.crs[n].deleting && !ClaimMissing(c, n, c.crs[n].spec)
    requires cr' == c.crs[n].(finalizers := WithFinalizer(c.crs[n].finalizers))
    ensures FullPass(Stored(c, n, cr'), n) == FullPass(c, n)
  {
    var cr, c' := c.crs[n], Stored(c, n, cr');
    RequiredSame(n, cr, cr');
    MergeStored(c, n, cr', Required(n, cr));
    assert c'.crs[n] == cr' && cr'.(finalizers := WithFinalizer(cr'.finalizers)) == cr';
    assert !ClaimMissing(c', n, cr'.spec);
    assert FullPass(c', n) == Concluded(Merged(c', n.ns, Required(n, cr')), n, cr');
    assert FullPass(c, n) == Concluded(Merged(c, n.ns, Required(n, cr)), n, cr);
  }

  lemma StatusKeeps(c: Cluster, n: CrName)
    requires n in c.crs && !Valid(c.crs[n].spec)
    ensures FullPass(Stored(c, n, c.crs[n].(status := InvalidStatus(c.crs[n].spec))), n) == FullPass(c, n)
  {
    var cr := c.crs[n];
    var cr' := cr.(status := InvalidStatus(cr.spec));
    assert c.crs[n := cr'][n := cr'] == c.crs[n := cr'];
  }

  /** Taking the finalizer off keeps the closed form if and only if everything is cleaned up. */
  lemma RemovalKeeps(c: Cluster, n: CrName)
    requires n in c.crs && Valid(c.crs[n].spec) && c.crs[n].deleting && FINALIZER in c.crs[n].finalizers
    requires Without(c.crs[n].finalizers, FINALIZER) == [] && !ClaimMissing(c, n, c.crs[n].spec)
    requires Present(c, n, c.crs[n], -1, true)
    ensures var c' := Stored(c, n, c.crs[n].(finalizers := Without(c.crs[n].finalizers, FINALIZER)));
            && n !in c'.crs && FullPass(c', n).1 == FullPass(c, n).1
            && (FullPass(c', n).0 == FullPass(c, n).0 <==> CleanedUp(c, n.ns))
  {
    hide Build, Required, Matched;
    if CleanedUp(c, n.ns) {
      MergeAll(c, n.ns, Required(n, c.crs[n]));
    } else {
      EnsuredSccDone(c, n.ns);
      var d := WithoutRoles(Merged(c, n.ns, Required(n, c.crs[n])));
      assert d.objs != c.objs || d.scc != c.scc;
    }
  }

  // ---------------------------------------------------------------- every step keeps the closed form

  lemma WritingStatusKeeps(st: Store, p: Snap)
    requires Holds(st, p) && !Valid(p.cr.spec)
    ensures FullPass(Effect(st, CallOf(WritingStatus(p))).0.c, p.n) == FullPass(st.c, p.n)
  {
    SetCrStored(st, p.n, p.cr.(status := InvalidStatus(p.cr.spec)));
    StatusKeeps(st.c, p.n);
  }

  lemma WritingSccKeeps(st: Store, pc: Pc)
    requires (pc.CreatingScc? || pc.AppendingScc?) && SccSync(st, pc) && Holds(st, pc.p) && Valid(pc.p.cr.spec)
    ensures FullPass(Effect(st, CallOf(pc)).0.c, pc.p.n) == FullPass(st.c, pc.p.n)
  {
    assert Effect(st, CallOf(pc)).0.c == EnsuredScc(st.c, pc.p.n.ns);
    SccKeeps(st.c, pc.p.n);
  }

  lemma CreatingKeeps(st: Store, p: Snap, kind: Kind)
    requires Holds(st, p) && Valid(p.cr.spec) && !ClaimMissing(st.c, p.n, p.cr.spec)
    requires Managed(p.cr.spec, kind) && LookupKey(p.n, p.cr.spec, kind) !in st.c.objs
    ensures FullPass(Effect(st, CallOf(Creating(p, kind))).0.c, p.n) == FullPass(st.c, p.n)
  {
    BuiltWhereLookedUp(p.n, p.cr, kind);
    CreationKeeps(st.c, p.n, kind);
  }

  lemma AddingFinalizerKeeps(st: Store, p: Snap)
    requires Holds(st, p) && Valid(p.cr.spec) && !p.cr.deleting && !ClaimMissing(st.c, p.n, p.cr.spec)
    ensures FullPass(Effect(st, CallOf(AddingFinalizer(p))).0.c, p.n) == FullPass(st.c, p.n)
  {
    var cr' := p.cr.(finalizers := WithFinalizer(p.cr.finalizers));
    SetCrStored(st, p.n, cr');
    AdditionKeeps(st.c, p.n, cr');
  }

  lemma DeletingKeeps(st: Store, pc: Pc)
    requires (pc.DeletingRole? || pc.DeletingBinding?) && Holds(st, pc.p) && Valid(pc.p.cr.spec) && EndSync(st, pc)
    requires !ClaimMissing(st.c, pc.p.n, pc.p.cr.spec)
    ensures FullPass(Effect(st, CallOf(pc)).0.c, pc.p.n) == FullPass(st.c, pc.p.n)
  {
    hide Build, FullPass;
    DeletionKeeps(st.c, pc.p.n, if pc.DeletingRole? then ROLE_KEY else BINDING_KEY);
  }

  lemma RemovingFinalizerKeeps(st: Store, p: Snap)
    requires Sync(System(st, RemovingFinalizer(p)), p.n) && !Relapses(st.c, p.n)
    ensures var c' := Effect(st, CallOf(RemovingFinalizer(p))).0.c;
            && p.n !in c'.crs && FullPass(c', p.n).1 == FullPass(st.c, p.n).1
            && (FullPass(c', p.n).0 == FullPass(st.c, p.n).0 <==> CleanedUp(st.c, p.n.ns))
  {
    hide Present, CleanedUp, FullPass;
    SetCrStored(st, p.n, p.cr.(finalizers := Without(p.cr.finalizers, FINALIZER)));
    RemovalKeeps(st.c, p.n);
  }

  lemma EffectKeeps(st: Store, pc: Pc, n: CrName)
    requires !pc.Finished? && Sync(System(st, pc), n) && !Relapses(st.c, n)
    requires pc.RemovingFinalizer? ==> CleanedUp(st.c, n.ns)
    ensures FullPass(Effect(st, CallOf(pc)).0.c, n) == FullPass(st.c, n)
  {
    hide BuildDeployment, BuildPvc, BuildStorageClass, Current, Required, FullPass, Present, SccSync;
    hide Relapses, CleanedUp;
    match pc
    case WritingStatus(p) => WritingStatusKeeps(st, p);
    case CreatingScc(p) => WritingSccKeeps(st, pc);
    case AppendingScc(p, _, _) => WritingSccKeeps(st, pc);
    case Creating(p, kind) => CreatingKeeps(st, p, kind);
    case AddingFinalizer(p) => AddingFinalizerKeeps(st, p);
    case DeletingRole(p) => DeletingKeeps(st, pc);
    case DeletingBinding(p) => DeletingKeeps(st, pc);
    case RemovingFinalizer(p) => RemovingFinalizerKeeps(st, p);
    case _ =>
  }

  // ---------------------------------------------------------------- every step keeps what the pass knows

  lemma SccSyncStep(st: Store, pc: Pc, fault: Fault)
    requires !pc.Finished? && (HasSnap(pc) ==> SccSync(st, pc))
    ensures var (st', pc') := Tick(st, pc, fault); HasSnap(pc') ==> SccSync(st', pc')
  {
    hide Build, BuildScc, Matched;
    if pc.CreatingScc? || pc.AppendingScc? {
      AppendMatches(if pc.CreatingScc? then BuildScc(pc.p.n.ns) else pc.seen, pc.p.n.ns);
    }
  }

  lemma EndSyncStep(st: Store, pc: Pc, n: CrName, fault: Fault)
    requires !pc.Finished? && Sync(System(st, pc), n)
    ensures var (st', pc') := Tick(st, pc, fault); HasSnap(pc') ==> EndSync(st', pc')
  {
    hide Present;
  }

  lemma PresentNext(c: Cluster, n: CrName, cr: Cr, kind: Kind)
    requires Present(c, n, cr, KindRank(kind), false)
    requires Managed(cr.spec, kind) ==> LookupKey(n, cr.spec, kind) in c.objs
    ensures Present(c, n, cr, KindRank(kind) - 1, false)
  {
    forall k | k in Required(n, cr) && KindRank(kind) - 1 < KindRank(k.kind) ensures k in c.objs {
      RequiredMeaning(n, cr, k);
      RankStep(k.kind, kind);
    }
  }

  lemma PresentFirst(c: Cluster, p: Snap)
    ensures Present(c, p.n, p.cr, RankAt(AfterScc(p)), false)
  {
    forall k | k in Required(p.n, p.cr) ensures KindRank(k.kind) <= RankAt(AfterScc(p)) {
      RequiredMeaning(p.n, p.cr, k);
    }
  }

  lemma AtNext(p: Snap, kind: Kind)
    ensures RankAt(After(p, kind)) == KindRank(kind) - 1
    ensures After(p, kind).Reading? ==> After(p, kind).kind != Pvc
    ensures HasSnap(After(p, kind)) ==> After(p, kind).p == p
    ensures HasSnap(After(p, kind)) ==> PastScc(After(p, kind)) && !After(p, kind).Creating?
  {
  }

  lemma ReadingObjStep(st: Store, pc: Pc, fault: Fault)
    requires pc.Reading? && ObjSync(st, pc)
    ensures var (st', pc') := Tick(st, pc, fault); HasSnap(pc') ==> ObjSync(st', pc')
  {
    hide BuildDeployment, Build, LookupKey, Managed, After, Required;
    AtNext(pc.p, pc.kind);
    if LookupKey(pc.p.n, pc.p.cr.spec, pc.kind) in st.c.objs {
      PresentNext(st.c, pc.p.n, pc.p.cr, pc.kind);
    }
  }

  lemma CreatingObjStep(st: Store, pc: Pc, fault: Fault)
    requires pc.Creating? && ObjSync(st, pc)
    ensures var (st', pc') := Tick(st, pc, fault); HasSnap(pc') ==> ObjSync(st', pc')
  {
    hide Build;
    AtNext(pc.p, pc.kind);
    BuiltWhereLookedUp(pc.p.n, pc.p.cr, pc.kind);
    var (st', _) := Tick(st, pc, fault);
    if fault.Fine? {
      assert Present(st'.c, pc.p.n, pc.p.cr, KindRank(pc.kind), false);
      PresentNext(st'.c, pc.p.n, pc.p.cr, pc.kind);
    }
  }

  lemma SccObjStep(st: Store, pc: Pc, fault: Fault)
    requires HasSnap(pc) && !PastScc(pc)
    ensures var (st', pc') := Tick(st, pc, fault); HasSnap(pc') ==> ObjSync(st', pc')
  {
    hide BuildDeployment, BuildPvc, Build, LookupKey, Account, InvalidStatus, Perform;
    var (st', _) := Tick(st, pc, fault);
    PresentFirst(st'.c, pc.p);
  }

  lemma CleanupObjStep(st: Store, pc: Pc, fault: Fault)
    requires (pc.AddingFinalizer? || InCleanup(pc)) && ObjSync(st, pc)
    ensures var (st', pc') := Tick(st, pc, fault); HasSnap(pc') ==> ObjSync(st', pc')
  {
    hide Build, KindRank, Required, Managed;
  }

  lemma ObjSyncStep(st: Store, pc: Pc, fault: Fault)
    requires HasSnap(pc) && ObjSync(st, pc)
    ensures var (st', pc') := Tick(st, pc, fault); HasSnap(pc') ==> ObjSync(st', pc')
  {
    if pc.Reading? {
      ReadingObjStep(st, pc, fault);
    } else if pc.Creating? {
      CreatingObjStep(st, pc, fault);
    } else if PastScc(pc) {
      CleanupObjStep(st, pc, fault);
    } else {
      SccObjStep(st, pc, fault);
    }
  }

  lemma HoldsStep(st: Store, pc: Pc, fault: Fault)
    requires HasSnap(pc) && Holds(st, pc.p)
    requires EndSync(st, pc) && (Valid(pc.p.cr.spec) <==> !pc.WritingStatus?)
    ensures var (st', pc') := Tick(st, pc, fault);
            HasSnap(pc') ==> pc'.p == pc.p && Holds(st', pc'.p) && !pc'.WritingStatus?
  {
    hide Build;
  }

  lemma FetchSync(st: Store, n: CrName, fault: Fault)
    ensures var (st', pc') := Tick(st, Fetching(n), fault); Sync(System(st', pc'), n)
  {
  }

  lemma SyncStep(s: System, n: CrName, fault: Fault)
    requires Sync(s, n)
    ensures Sync(Apply(s, Step(fault)), n)
  {
    if s.pc.Fetching? {
      FetchSync(s.st, n, fault);
    } else if HasSnap(s.pc) {
      HoldsStep(s.st, s.pc, fault);
      SccSyncStep(s.st, s.pc, fault);
      ObjSyncStep(s.st, s.pc, fault);
      EndSyncStep(s.st, s.pc, n, fault);
    }
  }

  // ---------------------------------------------------------------- the theorems

  lemma UpdateRelapses(st: Store, pc: Pc, n: CrName, fault: Fault)
    requires Updates(pc) && pc.p.n == n && Holds(st, pc.p) && EndSync(st, pc) && !Relapses(st.c, n)
    ensures !Relapses(Tick(st, pc, fault).0.c, n)
  {
    hide Build;
    WithoutRemoves(pc.p.cr.finalizers, FINALIZER);
  }

  lemma ClaimsStay(st: Store, pc: Pc, fault: Fault, k: Key)
    requires !pc.Finished? && k in st.c.objs && k.kind == Pvc
    ensures k in Tick(st, pc, fault).0.c.objs
  {
    hide Build, LookupKey;
  }

  lemma SpecStays(st: Store, pc: Pc, n: CrName, fault: Fault)
    requires !pc.Finished? && (HasSnap(pc) ==> pc.p.n == n && Holds(st, pc.p))
    ensures var c' := Tick(st, pc, fault).0.c; n in c'.crs ==> n in st.c.crs && c'.crs[n].spec == st.c.crs[n].spec
  {
    hide Build, LookupKey;
  }

  /** Nobody makes the claim that a resource names. */
  lemma NamedClaimsStayMissing(st: Store, pc: Pc, n: CrName, spec: Spec, fault: Fault)
    requires !pc.Finished? && (HasSnap(pc) ==> pc.p.n == n && pc.p.cr.spec == spec) && ClaimMissing(st.c, n, spec)
    requires pc.Creating? ==> Managed(spec, pc.kind)
    ensures ClaimMissing(Tick(st, pc, fault).0.c, n, spec)
  {
    hide Managed, BuildDeployment;
    if pc.Creating? {
      BuiltWhereLookedUp(n, pc.p.cr, pc.kind);
      NamedClaimIsNotManaged(spec);
      LookupKind(n, spec, pc.kind);
    }
  }

  lemma NamedClaimIsNotManaged(spec: Spec)
    ensures spec.pvc != "" ==> !Managed(spec, Pvc)
  {
  }

  lemma TickStore(st: Store, pc: Pc, fault: Fault)
    requires !pc.Finished?
    ensures Tick(st, pc, fault).0 == if fault.FailBefore? then st else Effect(st, CallOf(pc)).0
  {
  }

  lemma RelapsesStep(st: Store, pc: Pc, n: CrName, fault: Fault)
    requires !pc.Finished? && Sync(System(st, pc), n) && !Relapses(st.c, n)
    ensures !Relapses(Tick(st, pc, fault).0.c, n)
  {
    hide Tick, SccSync, Required;
    if Updates(pc) {
      UpdateRelapses(st, pc, n, fault);
    } else if pc.Fetching? {
      ReadsKeep(st, pc);
      TickStore(st, pc, fault);
    } else {
      OnlyUpdatesWrite(st, pc, fault);
      if ClaimMissing(st.c, n, pc.p.cr.spec) {
        NamedClaimsStayMissing(st, pc, n, pc.p.cr.spec, fault);
      }
    }
  }

  /** Where the passes for `n` lead is fixed. */
  ghost predicate Leads(s: System, n: CrName, target: (Cluster, Result)) {
    Sync(s, n) && !Relapses(s.st.c, n) && FullPass(s.st.c, n) == target
  }

  lemma LeadsKept(s: System, n: CrName, a: Action)
    requires Alone(n, s, a) && CleanRemoval(s, a)
    ensures Sync(s, n) && !Relapses(s.st.c, n) ==> Leads(Apply(s, a), n, FullPass(s.st.c, n))
  {
    hide Relapses, CleanedUp, FullPass, Tick;
    if Sync(s, n) && !Relapses(s.st.c, n) && a.Step? && !s.pc.Finished? {
      SyncStep(s, n, a.fault);
      RelapsesStep(s.st, s.pc, n, a.fault);
      TickStore(s.st, s.pc, a.fault);
      if !a.fault.FailBefore? {
        EffectKeeps(s.st, s.pc, n);
      }
    }
  }

  /** Once the resource is gone, passes for it do nothing. */
  lemma {:induction false} GoneStays(s: System, n: CrName, actions: seq<Action>)
    requires n !in s.st.c.crs && (s.pc.Finished? || s.pc == Fetching(n))
    requires Admitted(s, actions, (s, a) => Alone(n, s, a))
    ensures Run(s, actions).st.c == s.st.c
    decreases |actions|
  {
    if actions != [] {
      GoneStays(Apply(s, actions[0]), n, actions[1..]);
    }
  }

  /** The heart of the matter: the closed form survives a run if and only if no action takes the finalizer off too
      early; the result survives in any case. */
  lemma {:induction false} LeadsIff(s: System, n: CrName, actions: seq<Action>)
    requires Sync(s, n) && !Relapses(s.st.c, n) && Admitted(s, actions, (s, a) => Alone(n, s, a))
    ensures FullPass(Run(s, actions).st.c, n).1 == FullPass(s.st.c, n).1
    ensures FullPass(Run(s, actions).st.c, n).0 == FullPass(s.st.c, n).0 <==>
            Admitted(s, actions, (s, a) => CleanRemoval(s, a))
    decreases |actions|
  {
    hide FullPass, Sync, CleanedUp, Relapses, Tick;
    if actions != [] {
      var a, s' := actions[0], Apply(s, actions[0]);
      if CleanRemoval(s, a) {
        LeadsKept(s, n, a);
        LeadsIff(s', n, actions[1..]);
      } else {
        TooEarly(s, n, a.fault);
        GoneStays(s', n, actions[1..]);
      }
    }
  }

  lemma TooEarly(s: System, n: CrName, fault: Fault)
    requires Sync(s, n) && !Relapses(s.st.c, n) && !CleanRemoval(s, Step(fault))
    ensures var s' := Apply(s, Step(fault));
            && n !in s'.st.c.crs && s'.pc.Finished?
            && FullPass(s'.st.c, n).1 == FullPass(s.st.c, n).1 && FullPass(s'.st.c, n).0 != FullPass(s.st.c, n).0
  {
    hide FullPass, Relapses, Without;
    RemovingFinalizerKeeps(s.st, s.pc.p);
  }

  /** After any number of passes, each cut or disturbed in any way, one fault-free pass ends in the cluster of one
      fault-free pass from the start, if and only if at no moment the finalizer was taken off a resource for which
      something was left to clean up; and in any case with the same result. Should the resource be gone, the
      cluster is that one already. */
  lemma FaultConfluence(st: Store, last: Result, n: CrName, actions: seq<Action>)
    requires !Relapses(st.c, n)
    requires Admitted(System(st, Finished(last)), actions, (s, a) => Alone(n, s, a))
    ensures var s0, st' := System(st, Finished(last)), Run(System(st, Finished(last)), actions).st;
            && Pass(st', n).1 == Pass(st, n).1
            && (Pass(st', n).0.c == Pass(st, n).0.c <==> Admitted(s0, actions, (s, a) => CleanRemoval(s, a)))
            && (n !in st'.c.crs && Admitted(s0, actions, (s, a) => CleanRemoval(s, a)) ==> st'.c == Pass(st, n).0.c)
  {
    LeadsIff(System(st, Finished(last)), n, actions);
    PassIsFullPass(st, n);
    PassIsFullPass(Run(System(st, Finished(last)), actions).st, n);
  }

  // ---------------------------------------------------------------- when removals are clean

  /** The three Gets whose failure the operator does not notice, in a pass after which there may be no other one. */
  predicate NoticedFault(c: Cluster, pc: Pc, fault: Fault) {
    || fault.Fine?
    || !(
      || (pc.LookingUpCrd? && Finalizes(pc.p.cr) && !SccDone(c, pc.p.n.ns))
      || (pc.ReadingRole? && ROLE_KEY in c.objs)
      || (pc.ReadingBinding? && BINDING_KEY in c.objs))
  }

  predicate Noticed(n: CrName, s: System, a: Action) {
    Alone(n, s, a) && (a.Step? ==> NoticedFault(s.st.c, s.pc, a.fault))
  }

  /** What a deletion has cleaned up so far. */
  ghost predicate Thorough(st: Store, pc: Pc) {
    && (PastScc(pc) && Finalizes(pc.p.cr) ==> SccDone(st.c, pc.p.n.ns))
    && (pc.ReadingBinding? || pc.DeletingBinding? || pc.RemovingFinalizer? ==> ROLE_KEY !in st.c.objs)
    && (pc.RemovingFinalizer? ==> BINDING_KEY !in st.c.objs)
  }

  lemma ThoroughScc(st: Store, pc: Pc, n: CrName, fault: Fault)
    requires !pc.Finished? && Sync(System(st, pc), n) && Thorough(st, pc) && NoticedFault(st.c, pc, fault)
    ensures var (st', pc') := Tick(st, pc, fault); PastScc(pc') && Finalizes(pc'.p.cr) ==> SccDone(st'.c, pc'.p.n.ns)
  {
    hide Build, BuildScc, Matched, ObjSync;
    if pc.CreatingScc? || pc.AppendingScc? {
      AppendMatches(if pc.CreatingScc? then BuildScc(pc.p.n.ns) else pc.seen, pc.p.n.ns);
    }
  }

  lemma ThoroughRoles(st: Store, pc: Pc, fault: Fault)
    requires !pc.Finished? && Thorough(st, pc) && NoticedFault(st.c, pc, fault)
    ensures var (st', pc') := Tick(st, pc, fault);
            && (pc'.ReadingBinding? || pc'.DeletingBinding? || pc'.RemovingFinalizer? ==> ROLE_KEY !in st'.c.objs)
            && (pc'.RemovingFinalizer? ==> BINDING_KEY !in st'.c.objs)
  {
    hide Build, Matched;
  }

  /** If no such Get fails where it would have found work to do, every removal is clean. */
  lemma {:induction false} NoticedIsClean(s: System, n: CrName, actions: seq<Action>)
    requires Sync(s, n) && Thorough(s.st, s.pc) && Admitted(s, actions, (s, a) => Noticed(n, s, a))
    ensures Admitted(s, actions, (s, a) => Alone(n, s, a)) && Admitted(s, actions, (s, a) => CleanRemoval(s, a))
    decreases |actions|
  {
    hide Tick, ObjSync, SccSync;
    if actions != [] {
      var a, s' := actions[0], Apply(s, actions[0]);
      if a.Step? && !s.pc.Finished? {
        SyncStep(s, n, a.fault);
        ThoroughScc(s.st, s.pc, n, a.fault);
        ThoroughRoles(s.st, s.pc, a.fault);
      }
      assert CleanRemoval(s, a);
      NoticedIsClean(s', n, actions[1..]);
    }
  }

  lemma RoleRequired(n: CrName, cr: Cr)
    ensures ROLE_KEY in Required(n, cr) && BINDING_KEY in Required(n, cr)
  {
    RequiredMeaning(n, cr, ROLE_KEY);
    RequiredMeaning(n, cr, BINDING_KEY);
  }

  lemma WithoutRemoves(xs: seq<string>, s: string)
    ensures s !in Without(xs, s)
  {
  }

  lemma {:induction false} PassAdmitted(a: Config, n: CrName)
    requires a.faults == []
    ensures Admitted(System(a.st, a.pc), Steps(a), (s, a) => Noticed(n, s, a))
    ensures Admitted(System(a.st, a.pc), Steps(a), (s, a) => Alone(n, s, a))
    decreases Rank(a.pc)
  {
    if !a.pc.Finished? {
      PassAdmitted(Ticked(a), n);
      assert Steps(a)[1..] == Steps(Ticked(a));
    }
  }

  lemma CalmPassKeeps(st: Store, n: CrName)
    requires !Relapses(st.c, n)
    ensures FullPass(Pass(st, n).0.c, n).0 == FullPass(st.c, n).0
  {
    hide Relapses, FullPass, CleanRemoval, Noticed;
    var actions := [Start(n)] + Steps(Calm(st, Fetching(n)));
    PassAdmitted(Calm(st, Fetching(n)), n);
    PassIsRun(Calm(st, Fetching(n)));
    assert actions[1..] == Steps(Calm(st, Fetching(n)));
    StartAdmitted(st, n, actions);
    NoticedIsClean(System(st, Finished(Err)), n, actions);
    LeadsIff(System(st, Finished(Err)), n, actions);
  }

  lemma StartAdmitted(st: Store, n: CrName, actions: seq<Action>)
    requires actions != [] && actions[0] == Start(n)
    requires Admitted(System(st, Fetching(n)), actions[1..], (s, a) => Noticed(n, s, a))
    ensures Admitted(System(st, Finished(Err)), actions, (s, a) => Noticed(n, s, a))
  {
  }

  /** Idempotence, exactly: a second pass leaves everything as the first did unless the first completed its
      part of a deletion that somebody else still holds up. The second one then recreates the cluster roles. */
  lemma PassTwice(st: Store, n: CrName)
    ensures Pass(Pass(st, n).0, n).0.c == Pass(st, n).0.c <==> !Relapses(st.c, n)
  {
    hide Build, Required;
    PassIsFullPass(st, n);
    PassIsFullPass(Pass(st, n).0, n);
    if Relapses(st.c, n) {
      WithoutRemoves(st.c.crs[n].finalizers, FINALIZER);
      RoleRequired(n, Pass(st, n).0.c.crs[n]);
    } else {
      CalmPassKeeps(st, n);
    }
  }

  /** A fault-free pass deletes a resource that carries only this finalizer if and only if its spec is valid and
      the claim it names exists. */
  lemma DeletionCompletes(st: Store, n: CrName)
    requires n in st.c.crs && st.c.crs[n].deleting && st.c.crs[n].finalizers == [FINALIZER]
    ensures n !in Pass(st, n).0.c.crs <==> Valid(st.c.crs[n].spec) && !ClaimMissing(st.c, n, st.c.crs[n].spec)
  {
    PassIsFullPass(st, n);
    assert Without([FINALIZER], FINALIZER) == [];
  }
}
