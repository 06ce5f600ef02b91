/** What a fault-free pass does to the cluster, in closed form, and why faults do not matter: the closed form
    is an invariant of every single step of the operator. */
module Convergence {
  import opened Objects
  import opened Matching
  import opened Protocol

  // ---------------------------------------------------------------- the closed form

  function RequiredKeys(n: CrName, spec: Spec): set<Key> {
    set kind: Kind | Managed(spec, kind) :: LookupKey(n, spec, kind)
  }

  /** The objects that the resource asks the operator to create, as it would build them. */
  function Required(n: CrName, cr: Cr): map<Key, Object> {
    map k | k in RequiredKeys(n, cr.spec) :: Build(n, cr, k.kind).obj
  }

  /** Every object is built under the key under which it is looked up, for every kind that is built at all. */
  lemma BuiltWhereLookedUp(n: CrName, cr: Cr, kind: Kind)
    ensures Managed(cr.spec, kind) ==> Build(n, cr, kind).key == LookupKey(n, cr.spec, kind)
    ensures kind == Pvc && cr.spec.pvc !in {"", DEFAULT_PVC} ==> Build(n, cr, kind).key != LookupKey(n, cr.spec, kind)
  {
  }

  /** The SCC step: create with this account, or append the account unless some user matches. */
  function EnsuredScc(c: Cluster, ns: string): Cluster {
    if !c.crd then c
    else if c.scc.None? then c.(scc := Some(BuildScc(ns)))
    else if Matched(c.scc.value.users, ns) then c
    else c.(scc := Some(Appended(c.scc.value, ns)))
  }

  /** The resource names a claim that does not exist. */
  predicate ClaimMissing(c: Cluster, n: CrName, spec: Spec) {
    spec.hostPathDir == "" && spec.pvc != "" && LookupKey(n, spec, Pvc) !in c.objs
  }

  /** What exists stays, what is required and missing is added. */
  function Merged(c: Cluster, ns: string, required: map<Key, Object>): Cluster {
    EnsuredScc(c, ns).(objs := required + c.objs)
  }

  /** All managers. */
  function Ensured(c: Cluster, n: CrName, cr: Cr): Cluster {
    if ClaimMissing(c, n, cr.spec) then EnsuredScc(c, n.ns) else Merged(c, n.ns, Required(n, cr))
  }

  function WithoutRoles(c: Cluster): Cluster {
    c.(objs := c.objs - {ROLE_KEY, BINDING_KEY})
  }

  function Stored(c: Cluster, n: CrName, cr: Cr): Cluster {
    c.(crs := if cr.deleting && cr.finalizers == [] then c.crs - {n} else c.crs[n := cr])
  }

  /** The finalizer stage on a cluster in which everything is ensured. */
  function Concluded(c: Cluster, n: CrName, cr: Cr): (Cluster, Result) {
    if !cr.deleting then
      (Stored(c, n, cr.(finalizers := WithFinalizer(cr.finalizers))), Ok(true))
    else if FINALIZER in cr.finalizers then
      (Stored(WithoutRoles(c), n, cr.(finalizers := Without(cr.finalizers, FINALIZER))), Ok(false))
    else
      (c, Ok(false))
  }

  /** A fault-free pass: the cluster it leaves and the result it returns. */
  function FullPass(c: Cluster, n: CrName): (Cluster, Result) {
    if n !in c.crs then
      (c, Ok(false))
    else
      var cr := c.crs[n];
      if !Valid(cr.spec) then (Stored(c, n, cr.(status := InvalidStatus(cr.spec))), Ok(false))
      else if ClaimMissing(c, n, cr.spec) then (Ensured(c, n, cr), Err)
      else Concluded(Ensured(c, n, cr), n, cr)
  }

  // ---------------------------------------------------------------- refinement

  /** The required objects from `kind` on, in the order in which the managers meet them. */
  function RequiredFrom(n: CrName, cr: Cr, kind: Kind): (r: map<Key, Object>)
    ensures forall k :: k in r ==> KindRank(k.kind) <= KindRank(kind)
    decreases KindRank(kind)
  {
    var later := if kind == StorageClass then map[] else RequiredFrom(n, cr, Following(kind));
    if Managed(cr.spec, kind) then later[LookupKey(n, cr.spec, kind) := Build(n, cr, kind).obj] else later
  }

  lemma RankStep(kind: Kind, other: Kind)
    ensures kind != StorageClass ==> KindRank(Following(kind)) == KindRank(kind) - 1
    ensures kind == StorageClass ==> KindRank(kind) == 0
    ensures KindRank(kind) == KindRank(other) ==> kind == other
  {
  }

  lemma LookupKind(n: CrName, spec: Spec, kind: Kind)
    ensures LookupKey(n, spec, kind).kind == kind
  {
  }

  lemma {:induction false} RequiredFromMeaning(n: CrName, cr: Cr, kind: Kind, k: Key)
    ensures k in RequiredFrom(n, cr, kind) <==>
            k == LookupKey(n, cr.spec, k.kind) && Managed(cr.spec, k.kind) && KindRank(k.kind) <= KindRank(kind)
    ensures k in RequiredFrom(n, cr, kind) ==> RequiredFrom(n, cr, kind)[k] == Build(n, cr, k.kind).obj
    decreases KindRank(kind)
  {
    RankStep(kind, k.kind);
    LookupKind(n, cr.spec, kind);
    var key, obj, managed := LookupKey(n, cr.spec, kind), Build(n, cr, kind).obj, Managed(cr.spec, kind);
    var later := if kind == StorageClass then map[] else RequiredFrom(n, cr, Following(kind));
    assert RequiredFrom(n, cr, kind) == if managed then later[key := obj] else later;
    if kind != StorageClass {
      RequiredFromMeaning(n, cr, Following(kind), k);
    }
    if k.kind == kind {
      assert k !in later;
    }
  }

  /** The required objects are those of the managed kinds, each under its lookup key. */
  lemma RequiredMeaning(n: CrName, cr: Cr, k: Key)
    ensures k in Required(n, cr) <==> k == LookupKey(n, cr.spec, k.kind) && Managed(cr.spec, k.kind)
    ensures k in Required(n, cr) ==> Required(n, cr)[k] == Build(n, cr, k.kind).obj
  {
    if k in RequiredKeys(n, cr.spec) {
      var kind :| Managed(cr.spec, kind) && k == LookupKey(n, cr.spec, kind);
      LookupKind(n, cr.spec, kind);
    }
  }

  lemma RequiredFromAll(n: CrName, cr: Cr, kind: Kind)
    requires KindRank(kind) == 8 || (KindRank(kind) == 7 && !Managed(cr.spec, Pvc))
    ensures RequiredFrom(n, cr, kind) == Required(n, cr)
  {
    forall k: Key ensures k in RequiredFrom(n, cr, kind) <==> k in Required(n, cr)
                  ensures k in Required(n, cr) ==> RequiredFrom(n, cr, kind)[k] == Required(n, cr)[k] {
      RequiredFromMeaning(n, cr, kind, k);
      RequiredMeaning(n, cr, k);
      RankStep(Pvc, k.kind);
    }
  }

  /** `objs` with the object of `kind` added if it is required and missing. */
  function Added(objs: map<Key, Object>, n: CrName, cr: Cr, kind: Kind): map<Key, Object> {
    var k := LookupKey(n, cr.spec, kind);
    if Managed(cr.spec, kind) && k !in objs then objs[k := Build(n, cr, kind).obj] else objs
  }

  lemma AddThenUnion(later: map<Key, Object>, k: Key, o: Object, objs: map<Key, Object>)
    requires k !in later
    ensures later + (if k in objs then objs else objs[k := o]) == later[k := o] + objs
  {
  }

  /** A fault-free pass at `pc`. */
  function Calm(st: Store, pc: Pc): Config {
    At(st, pc, [])
  }

  lemma CalmTick(st: Store, pc: Pc)
    requires !pc.Finished?
    ensures var (st', pc') := Tick(st, pc, Fine); Reaches(Calm(st, pc), Calm(st', pc'))
  {
    TickReaches(Calm(st, pc));
  }

  lemma OneObject(st: Store, p: Snap, kind: Kind) returns (st': Store)
    requires kind == Pvc ==> p.cr.spec.hostPathDir == "" && !ClaimMissing(st.c, p.n, p.cr.spec)
    ensures Reaches(Calm(st, Reading(p, kind)), Calm(st', After(p, kind)))
    ensures st'.c == st.c.(objs := Added(st.c.objs, p.n, p.cr, kind))
    ensures st'.crRevs == st.crRevs && st'.sccRev == st.sccRev
  {
    var k := LookupKey(p.n, p.cr.spec, kind);
    BuiltWhereLookedUp(p.n, p.cr, kind);
    st' := if k in st.c.objs then st else SetObj(st, k, Build(p.n, p.cr, kind).obj);
    CalmTick(st, Reading(p, kind));
    if k !in st.c.objs {
      CalmTick(st, Creating(p, kind));
      ReachesTrans(Calm(st, Reading(p, kind)), Calm(st, Creating(p, kind)), Calm(st', After(p, kind)));
    }
  }

  /** What one manager and then all later ones add. */
  lemma AddedThenLater(n: CrName, cr: Cr, kind: Kind, objs: map<Key, Object>)
    ensures var later := if kind == StorageClass then map[] else RequiredFrom(n, cr, Following(kind));
            later + Added(objs, n, cr, kind) == RequiredFrom(n, cr, kind) + objs
  {
    hide Build;
    var later := if kind == StorageClass then map[] else RequiredFrom(n, cr, Following(kind));
    var k, o := LookupKey(n, cr.spec, kind), Build(n, cr, kind).obj;
    LookupKind(n, cr.spec, kind);
    RankStep(kind, k.kind);
    assert k !in later;
    AddThenUnion(later, k, o, objs);
  }

  lemma AfterKind(p: Snap, kind: Kind)
    ensures After(p, kind) == if kind == StorageClass then AfterEnsure(p) else Reading(p, Following(kind))
  {
  }

  lemma {:induction false} ObjectsRun(st: Store, p: Snap, kind: Kind) returns (st': Store)
    requires kind == Pvc ==> p.cr.spec.hostPathDir == "" && !ClaimMissing(st.c, p.n, p.cr.spec)
    ensures Reaches(Calm(st, Reading(p, kind)), Calm(st', AfterEnsure(p)))
    ensures st'.c == st.c.(objs := RequiredFrom(p.n, p.cr, kind) + st.c.objs)
    ensures st'.crRevs == st.crRevs && st'.sccRev == st.sccRev
    decreases KindRank(kind)
  {
    hide Build, Ticked, After, AfterEnsure, RequiredFrom, Added, Reaches, ClaimMissing;
    st' := OneObject(st, p, kind);
    AddedThenLater(p.n, p.cr, kind, st.c.objs);
    AfterKind(p, kind);
    RankStep(kind, kind);
    if kind == StorageClass {
      assert map[] + st'.c.objs == st'.c.objs;
    } else {
      var st1 := st';
      st' := ObjectsRun(st1, p, Following(kind));
      ReachesTrans(Calm(st, Reading(p, kind)), Calm(st1, Reading(p, Following(kind))), Calm(st', AfterEnsure(p)));
    }
  }

  lemma ReadingSccRun(st: Store, p: Snap) returns (st': Store)
    ensures Reaches(Calm(st, ReadingScc(p)), Calm(st', AfterScc(p)))
    ensures st.c.crd ==> st'.c == EnsuredScc(st.c, p.n.ns)
    ensures st'.c.objs == st.c.objs && st'.c.crs == st.c.crs && st'.crRevs == st.crRevs
  {
    st' := st;
    CalmTick(st, ReadingScc(p));
    if st.c.scc.None? {
      st' := SetScc(st, Some(BuildScc(p.n.ns)));
      CalmTick(st, CreatingScc(p));
      ReachesTrans(Calm(st, ReadingScc(p)), Calm(st, CreatingScc(p)), Calm(st', AfterScc(p)));
    } else if !Matched(st.c.scc.value.users, p.n.ns) {
      st' := SetScc(st, Some(Appended(st.c.scc.value, p.n.ns)));
      var pc := AppendingScc(p, st.sccRev, st.c.scc.value);
      CalmTick(st, pc);
      ReachesTrans(Calm(st, ReadingScc(p)), Calm(st, pc), Calm(st', AfterScc(p)));
    }
  }

  lemma SccRun(st: Store, p: Snap) returns (st': Store)
    ensures Reaches(Calm(st, LookingUpCrd(p)), Calm(st', AfterScc(p)))
    ensures st'.c == EnsuredScc(st.c, p.n.ns)
    ensures st'.crRevs == st.crRevs
  {
    st' := st;
    CalmTick(st, LookingUpCrd(p));
    if st.c.crd {
      st' := ReadingSccRun(st, p);
      ReachesTrans(Calm(st, LookingUpCrd(p)), Calm(st, ReadingScc(p)), Calm(st', AfterScc(p)));
    }
  }

  /** One Get and, if it finds something, one Delete, under any faults: a failing Get is taken for absence. */
  lemma DeletionStage(st: Store, reading: Pc, deleting: Pc, next: Pc, k: Key, faults: seq<Fault>) returns (b: Config)
    requires !reading.Finished? && !deleting.Finished? && !next.Finished?
    requires CallOf(reading) == GetObj(k) && CallOf(deleting) == DeleteObj(k)
    requires forall reply :: Next(reading, reply) == if reply.Success? then deleting else next
    requires forall reply :: Next(deleting, reply) == if reply.Success? then next else Finished(Err)
    ensures Reaches(At(st, reading, faults), b)
    ensures b.st.c.crs == st.c.crs && b.st.crRevs == st.crRevs
    ensures var found := First(faults).Fine? && k in st.c.objs;
            if found && !First(Rest(faults)).Fine? then b.pc == Finished(Err)
            else
              && b.pc == next && b.faults == (if found then Rest(Rest(faults)) else Rest(faults))
              && b.st.c == if First(faults).Fine? then st.c.(objs := st.c.objs - {k}) else st.c
  {
    hide Build;
    var a := At(st, reading, faults);
    b := Ticked(a);
    TickReaches(a);
    if First(faults).Fine? && k in st.c.objs {
      b := Ticked(Ticked(a));
      TickReaches(Ticked(a));
      ReachesTrans(a, Ticked(a), b);
    }
  }

  lemma RoleStage(st: Store, p: Snap, faults: seq<Fault>) returns (b: Config)
    ensures Reaches(At(st, ReadingRole(p), faults), b)
    ensures b.st.c.crs == st.c.crs && b.st.crRevs == st.crRevs
    ensures var found := First(faults).Fine? && ROLE_KEY in st.c.objs;
            if found && !First(Rest(faults)).Fine? then b.pc == Finished(Err)
            else
              && b.pc == ReadingBinding(p) && b.faults == (if found then Rest(Rest(faults)) else Rest(faults))
              && b.st.c == if First(faults).Fine? then st.c.(objs := st.c.objs - {ROLE_KEY}) else st.c
  {
    b := DeletionStage(st, ReadingRole(p), DeletingRole(p), ReadingBinding(p), ROLE_KEY, faults);
  }

  lemma BindingStage(st: Store, p: Snap, faults: seq<Fault>) returns (b: Config)
    ensures Reaches(At(st, ReadingBinding(p), faults), b)
    ensures b.st.c.crs == st.c.crs && b.st.crRevs == st.crRevs
    ensures var found := First(faults).Fine? && BINDING_KEY in st.c.objs;
            if found && !First(Rest(faults)).Fine? then b.pc == Finished(Err)
            else
              && b.pc == RemovingFinalizer(p) && b.faults == (if found then Rest(Rest(faults)) else Rest(faults))
              && b.st.c == if First(faults).Fine? then st.c.(objs := st.c.objs - {BINDING_KEY}) else st.c
  {
    b := DeletionStage(st, ReadingBinding(p), DeletingBinding(p), RemovingFinalizer(p), BINDING_KEY, faults);
  }

  lemma CleanupRun(st: Store, p: Snap) returns (st': Store)
    ensures Reaches(Calm(st, ReadingRole(p)), Calm(st', RemovingFinalizer(p)))
    ensures st'.c == WithoutRoles(st.c)
    ensures st'.crRevs == st.crRevs
  {
    hide Reaches;
    var b := RoleStage(st, p, []);
    var d := BindingStage(b.st, p, []);
    st' := d.st;
    ReachesTrans(Calm(st, ReadingRole(p)), b, d);
    assert (st.c.objs - {ROLE_KEY}) - {BINDING_KEY} == st.c.objs - {ROLE_KEY, BINDING_KEY};
  }

  /** A stored copy of the resource that is still current. */
  predicate Holds(st: Store, p: Snap) {
    Current(st, p.n, p.rev) && st.c.crs[p.n] == p.cr
  }

  lemma SetCrStored(st: Store, n: CrName, cr: Cr)
    ensures SetCr(st, n, cr).c == Stored(st.c, n, cr)
  {
    if n in st.c.crs && st.c.crs[n] == cr {
      assert st.c.crs[n := cr] == st.c.crs;
    } else if n !in st.c.crs {
      assert st.c.crs - {n} == st.c.crs;
    }
  }

  lemma FinishRun(st: Store, p: Snap)
    requires Holds(st, p)
    ensures var r := Exec(Calm(st, AfterEnsure(p)));
            (r.st.c, r.pc) == (Concluded(st.c, p.n, p.cr).0, Finished(Concluded(st.c, p.n, p.cr).1))
  {
    if !p.cr.deleting {
      SetCrStored(st, p.n, p.cr.(finalizers := WithFinalizer(p.cr.finalizers)));
      assert WithFinalizer(p.cr.finalizers) == p.cr.finalizers ==> st.c.crs[p.n := p.cr] == st.c.crs;
    } else if FINALIZER in p.cr.finalizers {
      var st1 := CleanupRun(st, p);
      ReachesExec(Calm(st, AfterEnsure(p)), Calm(st1, RemovingFinalizer(p)));
      SetCrStored(st1, p.n, p.cr.(finalizers := Without(p.cr.finalizers, FINALIZER)));
    }
  }

  lemma AllObjectsRun(st: Store, p: Snap) returns (st': Store)
    requires !ClaimMissing(st.c, p.n, p.cr.spec)
    ensures Reaches(Calm(st, AfterScc(p)), Calm(st', AfterEnsure(p)))
    ensures st'.c == st.c.(objs := Required(p.n, p.cr) + st.c.objs)
    ensures st'.crRevs == st.crRevs
  {
    var first := if p.cr.spec.hostPathDir != "" then ServiceAccount else Pvc;
    RequiredFromAll(p.n, p.cr, first);
    st' := ObjectsRun(st, p, first);
  }

  /** Refinement of EnsureAllResources: whenever the claim is there, a fault-free run of all managers ends with
      everything missing added and nothing else changed. */
  lemma ManagersRun(st: Store, p: Snap) returns (st': Store)
    requires !ClaimMissing(st.c, p.n, p.cr.spec)
    ensures Reaches(Calm(st, LookingUpCrd(p)), Calm(st', AfterEnsure(p)))
    ensures st'.c == Ensured(st.c, p.n, p.cr) && st'.crRevs == st.crRevs
  {
    var st1 := SccRun(st, p);
    assert st1.c.objs == st.c.objs;
    st' := AllObjectsRun(st1, p);
    ReachesTrans(Calm(st, LookingUpCrd(p)), Calm(st1, AfterScc(p)), Calm(st', AfterEnsure(p)));
  }

  /** When the claim is missing, the managers stop after the SCC. */
  lemma ClaimMissingRun(st: Store, p: Snap) returns (st': Store)
    requires ClaimMissing(st.c, p.n, p.cr.spec)
    ensures Reaches(Calm(st, LookingUpCrd(p)), Calm(st', Finished(Err)))
    ensures st'.c == Ensured(st.c, p.n, p.cr)
  {
    st' := SccRun(st, p);
    CalmTick(st', Reading(p, Pvc));
    ReachesTrans(Calm(st, LookingUpCrd(p)), Calm(st', Reading(p, Pvc)), Calm(st', Finished(Err)));
  }

  lemma StatusRun(st: Store, p: Snap)
    requires Holds(st, p)
    ensures var r := Exec(Calm(st, WritingStatus(p)));
            r.st.c == Stored(st.c, p.n, p.cr.(status := InvalidStatus(p.cr.spec))) && r.pc == Finished(Ok(false))
  {
    SetCrStored(st, p.n, p.cr.(status := InvalidStatus(p.cr.spec)));
  }

  lemma ValidPass(st: Store, p: Snap)
    requires Holds(st, p) && Valid(p.cr.spec)
    ensures var r := Exec(Calm(st, LookingUpCrd(p)));
            r.st.c == FullPass(st.c, p.n).0 && r.pc == Finished(FullPass(st.c, p.n).1)
  {
    if ClaimMissing(st.c, p.n, p.cr.spec) {
      var st1 := ClaimMissingRun(st, p);
      ReachesExec(Calm(st, LookingUpCrd(p)), Calm(st1, Finished(Err)));
    } else {
      var st1 := ManagersRun(st, p);
      ReachesExec(Calm(st, LookingUpCrd(p)), Calm(st1, AfterEnsure(p)));
      FinishRun(st1, p);
    }
  }

  /** Refinement: from any store, a fault-free pass does exactly what the closed form says. */
  lemma PassIsFullPass(st: Store, n: CrName)
    ensures Pass(st, n).0.c == FullPass(st.c, n).0
    ensures Pass(st, n).1 == Finished(FullPass(st.c, n).1)
  {
    var start := Calm(st, Fetching(n));
    CalmTick(st, Fetching(n));
    ReachesExec(start, Ticked(start));
    if n in st.c.crs {
      var p := Snap(n, RevOf(st, n), st.c.crs[n]);
      if Valid(p.cr.spec) {
        ValidPass(st, p);
      } else {
        StatusRun(st, p);
      }
    }
  }
}
