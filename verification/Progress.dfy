/** How much work the passes for one resource do, and which attempts can fail. */
module Progress {
  import opened Objects
  import opened Protocol
  import opened Convergence
  import opened Faults

  // ---------------------------------------------------------------- a conserved quantity

  /** What is still to be written for a live resource: missing objects, the SCC user, the finalizer. */
  function Outstanding(c: Cluster, n: CrName, cr: Cr): nat {
    |Required(n, cr).Keys - c.objs.Keys|
    + (if SccDone(c, n.ns) then 0 else 1)
    + (if FINALIZER in cr.finalizers then 0 else 1)
  }

  predicate Live(c: Cluster, n: CrName) {
    n in c.crs && !c.crs[n].deleting && Valid(c.crs[n].spec)
  }

  lemma {:induction false} RequiredFromCount(n: CrName, cr: Cr, kind: Kind)
    ensures |RequiredFrom(n, cr, kind).Keys| <= KindRank(kind) + 1
    decreases KindRank(kind)
  {
    hide Build, LookupKey;
    var later := if kind == StorageClass then map[] else RequiredFrom(n, cr, Following(kind));
    RankStep(kind, kind);
    if kind != StorageClass {
      RequiredFromCount(n, cr, Following(kind));
    }
    assert RequiredFrom(n, cr, kind).Keys <= later.Keys + {LookupKey(n, cr.spec, kind)};
    SubsetSize(RequiredFrom(n, cr, kind).Keys, later.Keys + {LookupKey(n, cr.spec, kind)});
  }

  lemma SubsetSize(a: set<Key>, b: set<Key>)
    requires a <= b
    ensures |a| <= |b|
  {
    assert b == a + (b - a);
  }

  lemma RequiredCount(n: CrName, cr: Cr)
    ensures |Required(n, cr).Keys| <= 9
  {
    RequiredFromAll(n, cr, Pvc);
    RequiredFromCount(n, cr, Pvc);
  }

  lemma OutstandingBound(c: Cluster, n: CrName, cr: Cr)
    ensures Outstanding(c, n, cr) <= 11
  {
    RequiredCount(n, cr);
    var keys := Required(n, cr).Keys;
    assert keys == (keys - c.objs.Keys) + (keys * c.objs.Keys);
  }

  lemma OutstandingAfterCreation(required: map<Key, Object>, objs: map<Key, Object>, k: Key, o: Object)
    requires k in required && k !in objs
    ensures |required.Keys - objs[k := o].Keys| + 1 == |required.Keys - objs.Keys|
  {
    assert required.Keys - objs.Keys == (required.Keys - objs[k := o].Keys) + {k};
  }

  /** What is left to be written, plus what has been written. */
  function Budget(st: Store, n: CrName): nat
    requires n in st.c.crs
  {
    st.clock + Outstanding(st.c, n, st.c.crs[n])
  }

  lemma WriteConserves(st: Store, pc: Pc, n: CrName)
    requires !pc.Finished? && Sync(System(st, pc), n) && Live(st.c, n)
    ensures var st' := Effect(st, CallOf(pc)).0;
            n in st'.c.crs && Live(st'.c, n) && Budget(st', n) == Budget(st, n)
  {
    assert !(pc.CreatingScc? || pc.AppendingScc? || pc.Creating? || pc.AddingFinalizer?) ==>
        Effect(st, CallOf(pc)).0 == st;
    match pc
    case CreatingScc(p) => SccConserves(st, pc);
    case AppendingScc(p, rev, seen) => SccConserves(st, pc);
    case Creating(p, kind) => CreationConserves(st, p, kind);
    case AddingFinalizer(p) => AdditionConserves(st, p);
    case _ =>
  }

  lemma SccConserves(st: Store, pc: Pc)
    requires (pc.CreatingScc? || pc.AppendingScc?) && SccSync(st, pc) && Holds(st, pc.p)
    ensures var st' := Effect(st, CallOf(pc)).0; st'.c.crs == st.c.crs && Budget(st', pc.p.n) == Budget(st, pc.p.n)
  {
    hide Build, Required;
    var st' := Effect(st, CallOf(pc)).0;
    AppendMatches(if pc.CreatingScc? then BuildScc(pc.p.n.ns) else pc.seen, pc.p.n.ns);
    assert st'.c.objs == st.c.objs && st'.clock == st.clock + 1;
    assert !SccDone(st.c, pc.p.n.ns) && SccDone(st'.c, pc.p.n.ns);
  }

  lemma CreatedStore(st: Store, p: Snap, kind: Kind)
    requires Managed(p.cr.spec, kind) && LookupKey(p.n, p.cr.spec, kind) !in st.c.objs
    ensures var m := Build(p.n, p.cr, kind);
            && Effect(st, CallOf(Creating(p, kind))).0 == SetObj(st, m.key, m.obj)
            && m.key !in st.c.objs && m.key in Required(p.n, p.cr)
  {
    BuiltWhereLookedUp(p.n, p.cr, kind);
    RequiredBuild(p.n, p.cr, kind);
    hide Build, LookupKey, Required;
  }

  lemma OutstandingLess(c: Cluster, n: CrName, cr: Cr, k: Key, o: Object)
    requires k in Required(n, cr) && k !in c.objs
    ensures Outstanding(c.(objs := c.objs[k := o]), n, cr) + 1 == Outstanding(c, n, cr)
  {
    hide Required;
    OutstandingAfterCreation(Required(n, cr), c.objs, k, o);
  }

  lemma CreationConserves(st: Store, p: Snap, kind: Kind)
    requires Holds(st, p) && Managed(p.cr.spec, kind) && LookupKey(p.n, p.cr.spec, kind) !in st.c.objs
    ensures var st' := Effect(st, CallOf(Creating(p, kind))).0;
            st'.c.crs == st.c.crs && Budget(st', p.n) == Budget(st, p.n)
  {
    hide Build, LookupKey, Required, Effect, CallOf, Outstanding;
    var m := Build(p.n, p.cr, kind);
    CreatedStore(st, p, kind);
    OutstandingLess(st.c, p.n, p.cr, m.key, m.obj);
  }

  lemma AdditionConserves(st: Store, p: Snap)
    requires Holds(st, p) && !p.cr.deleting && Valid(p.cr.spec) && FINALIZER !in p.cr.finalizers
    ensures var st' := Effect(st, CallOf(AddingFinalizer(p))).0; Live(st'.c, p.n) && Budget(st', p.n) == Budget(st, p.n)
  {
    var cr' := p.cr.(finalizers := WithFinalizer(p.cr.finalizers));
    RequiredSame(p.n, p.cr, cr');
    assert FINALIZER in cr'.finalizers;
    assert cr' != p.cr;
  }

  ghost predicate Conserving(s: System, n: CrName, budget: nat) {
    Sync(s, n) && n in s.st.c.crs && Live(s.st.c, n) && Budget(s.st, n) == budget
  }

  lemma ConservingKept(s: System, n: CrName, a: Action)
    requires Sync(s, n) && n in s.st.c.crs && Live(s.st.c, n) && Alone(n, s, a)
    ensures Conserving(Apply(s, a), n, Budget(s.st, n))
  {
    hide Tick, SccSync, ObjSync, EndSync, Live, Budget;
    if a.Step? && !s.pc.Finished? {
      SyncStep(s, n, a.fault);
      TickStore(s.st, s.pc, a.fault);
      WriteConserves(s.st, s.pc, n);
    }
  }

  /** Every effective write of every pass lowers what is missing by one, whatever fails in between: all passes
      for a live resource together make at most eleven writes. */
  lemma BoundedWork(st: Store, last: Result, n: CrName, actions: seq<Action>)
    requires Live(st.c, n) && Admitted(System(st, Finished(last)), actions, (s, a) => Alone(n, s, a))
    ensures var st' := Run(System(st, Finished(last)), actions).st;
            Live(st'.c, n) && Budget(st', n) == Budget(st, n) && st'.clock <= st.clock + 11
  {
    var s0, budget := System(st, Finished(last)), Budget(st, n);
    var inv, ok := s => Conserving(s, n, budget), (s, a) => Alone(n, s, a);
    forall s, a | inv(s) && ok(s, a) ensures inv(Apply(s, a)) {
      ConservingKept(s, n, a);
    }
    Induct(s0, actions, inv, ok);
    OutstandingBound(st.c, n, st.c.crs[n]);
  }

  // ---------------------------------------------------------------- no writes without change

  lemma TickClock(st: Store, pc: Pc, fault: Fault)
    requires !pc.Finished?
    ensures var (st', _) := Tick(st, pc, fault); st.clock <= st'.clock && (st.clock == st'.clock ==> st == st')
  {
  }

  /** The clock counts every change: a pass that leaves it alone leaves the store alone, versions included. */
  lemma {:induction false} ExecClock(a: Config)
    ensures a.st.clock <= Exec(a).st.clock && (a.st.clock == Exec(a).st.clock ==> a.st == Exec(a).st)
    decreases Rank(a.pc)
  {
    if !a.pc.Finished? {
      TickClock(a.st, a.pc, First(a.faults));
      ExecClock(Ticked(a));
    }
  }

  /** A pass that reports success has left nothing to do. */
  lemma SuccessLeavesNothing(st: Store, n: CrName)
    requires Live(st.c, n) && Pass(st, n).1 != Finished(Err)
    ensures var st' := Pass(st, n).0; Live(st'.c, n) && Outstanding(st'.c, n, st'.c.crs[n]) == 0
  {
    var cr, st' := st.c.crs[n], Pass(st, n).0;
    PassIsFullPass(st, n);
    EnsuredSccDone(st.c, n.ns);
    RequiredSame(n, cr, st'.c.crs[n]);
    assert Required(n, cr).Keys - st'.c.objs.Keys == {};
  }

  /** When nothing is left to do, a fault-free pass writes nothing. */
  lemma NothingToWrite(st: Store, n: CrName)
    requires Live(st.c, n) && Outstanding(st.c, n, st.c.crs[n]) == 0
    ensures Pass(st, n).0 == st
  {
    hide Outstanding, Required, Build;
    var actions := [Start(n)] + Steps(Calm(st, Fetching(n)));
    PassAdmitted(Calm(st, Fetching(n)), n);
    PassIsRun(Calm(st, Fetching(n)));
    assert actions[1..] == Steps(Calm(st, Fetching(n)));
    BoundedWork(st, Err, n, actions);
    ExecClock(Calm(st, Fetching(n)));
  }

  /** After a successful pass every required object exists, and the next fault-free pass writes nothing at all. */
  lemma SecondPassWritesNothing(st: Store, n: CrName)
    requires Live(st.c, n) && Pass(st, n).1 != Finished(Err)
    ensures var st' := Pass(st, n).0;
            && Pass(st', n).0 == st'
            && (forall kind :: Managed(st.c.crs[n].spec, kind) ==> LookupKey(n, st.c.crs[n].spec, kind) in st'.c.objs)
  {
    var st' := Pass(st, n).0;
    SuccessLeavesNothing(st, n);
    NothingToWrite(st', n);
    PassIsFullPass(st, n);
    forall kind | Managed(st.c.crs[n].spec, kind) ensures LookupKey(n, st.c.crs[n].spec, kind) in st'.c.objs {
      RequiredBuild(n, st.c.crs[n], kind);
      BuiltWhereLookedUp(n, st.c.crs[n], kind);
    }
  }

  // ---------------------------------------------------------------- failures need faults

  function FaultCount(actions: seq<Action>): nat
    decreases |actions|
  {
    if actions == [] then 0
    else (if actions[0].Step? && !actions[0].fault.Fine? then 1 else 0) + FaultCount(actions[1..])
  }

  /** The steps of the run at which a pass ends with an error. */
  function FailureCount(s: System, actions: seq<Action>): nat
    decreases |actions|
  {
    if actions == [] then 0
    else
      (if actions[0].Step? && !s.pc.Finished? && Apply(s, actions[0]).pc == Finished(Err) then 1 else 0)
      + FailureCount(Apply(s, actions[0]), actions[1..])
  }

  /** No claim is missing for the pass in progress or to come. */
  predicate ClaimThere(c: Cluster, n: CrName) {
    n in c.crs && Valid(c.crs[n].spec) ==> !ClaimMissing(c, n, c.crs[n].spec)
  }

  lemma FineStepSucceeds(st: Store, pc: Pc, n: CrName)
    requires !pc.Finished? && Sync(System(st, pc), n) && ClaimThere(st.c, n)
    ensures Tick(st, pc, Fine).1 != Finished(Err)
  {
    hide Build, LookupKey;
    if pc.Creating? {
      BuiltWhereLookedUp(n, pc.p.cr, pc.kind);
    }
  }

  lemma ClaimThereStep(st: Store, pc: Pc, n: CrName, fault: Fault)
    requires !pc.Finished? && Sync(System(st, pc), n) && ClaimThere(st.c, n)
    ensures ClaimThere(Tick(st, pc, fault).0.c, n)
  {
    hide Tick, ObjSync, SccSync, EndSync;
    SpecStays(st, pc, n, fault);
    if n in st.c.crs {
      var claim := LookupKey(n, st.c.crs[n].spec, Pvc);
      if claim in st.c.objs {
        ClaimsStay(st, pc, fault, claim);
      }
    }
  }

  /** With k faults at most k attempts fail, for live and for deleted resources. */
  lemma {:induction false} FailuresNeedFaults(s: System, n: CrName, actions: seq<Action>)
    requires Sync(s, n) && ClaimThere(s.st.c, n) && Admitted(s, actions, (s, a) => Alone(n, s, a))
    ensures FailureCount(s, actions) <= FaultCount(actions)
    decreases |actions|
  {
    if actions != [] {
      var s' := Apply(s, actions[0]);
      if actions[0].Step? && !s.pc.Finished? {
        SyncStep(s, n, actions[0].fault);
        ClaimThereStep(s.st, s.pc, n, actions[0].fault);
        FineStepSucceeds(s.st, s.pc, n);
      }
      FailuresNeedFaults(s', n, actions[1..]);
    }
  }
}
