/** Where faults and retries do leave something behind, and exactly when. */
module Leaks {
  import opened Objects
  import opened Matching
  import opened Protocol
  import opened Convergence
  import opened Faults

  // ---------------------------------------------------------------- after a relapse

  /** Only passes for `n`, with any faults; others do anything except delete the cluster roles, and a deletion
      that lost this finalizer stays one. */
  predicate Abandoned(n: CrName, s: System, a: Action) {
    match a
    case Start(m) => m == n
    case Env(WriteCr(m, cr)) => m == n ==> cr.deleting && FINALIZER !in cr.finalizers
    case Env(RemoveObj(k)) => k != ROLE_KEY && k != BINDING_KEY
    case _ => true
  }

  predicate LeftBehind(s: System, n: CrName) {
    && ROLE_KEY in s.st.c.objs && BINDING_KEY in s.st.c.objs
    && (n in s.st.c.crs ==> s.st.c.crs[n].deleting && FINALIZER !in s.st.c.crs[n].finalizers)
    && (s.pc.Fetching? ==> s.pc.n == n)
    && (HasSnap(s.pc) ==>
      s.pc.p.n == n && !InCleanup(s.pc) && !s.pc.AddingFinalizer?
      && s.pc.p.cr.deleting && FINALIZER !in s.pc.p.cr.finalizers)
  }

  lemma RolesStay(st: Store, pc: Pc, fault: Fault)
    requires !pc.Finished? && !InCleanup(pc) && ROLE_KEY in st.c.objs && BINDING_KEY in st.c.objs
    ensures var c := Tick(st, pc, fault).0.c; ROLE_KEY in c.objs && BINDING_KEY in c.objs
  {
    hide Build, LookupKey;
  }

  lemma NextLeftBehind(st: Store, pc: Pc, n: CrName, fault: Fault)
    requires !pc.Finished? && LeftBehind(System(st, pc), n)
    ensures var pc' := Tick(st, pc, fault).1;
            && !pc'.Fetching?
            && (HasSnap(pc') ==>
              pc'.p.n == n && !InCleanup(pc') && !pc'.AddingFinalizer?
              && pc'.p.cr.deleting && FINALIZER !in pc'.p.cr.finalizers)
  {
    hide Build, LookupKey, Matched;
  }

  lemma StatusLeftBehind(st: Store, p: Snap, n: CrName, fault: Fault)
    requires LeftBehind(System(st, WritingStatus(p)), n)
    ensures var crs := Tick(st, WritingStatus(p), fault).0.c.crs;
            n in crs ==> crs[n].deleting && FINALIZER !in crs[n].finalizers
  {
  }

  lemma LeftBehindStep(s: System, n: CrName, fault: Fault)
    requires LeftBehind(s, n)
    ensures LeftBehind(Apply(s, Step(fault)), n)
  {
    hide Tick;
    if !s.pc.Finished? {
      RolesStay(s.st, s.pc, fault);
      NextLeftBehind(s.st, s.pc, n, fault);
      if s.pc.WritingStatus? {
        StatusLeftBehind(s.st, s.pc.p, n, fault);
      } else {
        OnlyUpdatesWrite(s.st, s.pc, fault);
      }
    }
  }

  lemma LeftBehindKept(s: System, n: CrName, a: Action)
    requires LeftBehind(s, n) && Abandoned(n, s, a)
    ensures LeftBehind(Apply(s, a), n)
  {
    hide Tick;
    if a.Step? {
      LeftBehindStep(s, n, a.fault);
    }
  }

  /** The second pass of a relapse brings both cluster roles back, and no pass for the resource ever deletes them,
      also not after the other finalizers are gone and it has left. */
  lemma RelapseLasts(st: Store, last: Result, n: CrName, actions: seq<Action>)
    requires Relapses(st.c, n)
    requires Admitted(System(Pass(Pass(st, n).0, n).0, Finished(last)), actions, (s, a) => Abandoned(n, s, a))
    ensures RolesAbsent(Pass(st, n).0.c)
    ensures var c := Run(System(Pass(Pass(st, n).0, n).0, Finished(last)), actions).st.c;
            ROLE_KEY in c.objs && BINDING_KEY in c.objs
  {
    hide Build, Required;
    var st1, st2 := Pass(st, n).0, Pass(Pass(st, n).0, n).0;
    PassIsFullPass(st, n);
    PassIsFullPass(st1, n);
    WithoutRemoves(st.c.crs[n].finalizers, FINALIZER);
    RoleRequired(n, st1.c.crs[n]);
    var inv, ok := s => LeftBehind(s, n), (s, a) => Abandoned(n, s, a);
    forall s, a | inv(s) && ok(s, a) ensures inv(Apply(s, a)) {
      LeftBehindKept(s, n, a);
    }
    Induct(System(st2, Finished(last)), actions, inv, ok);
  }

  // ---------------------------------------------------------------- the failures that go unnoticed

  /** A failing lookup of the resource definition in a deletion: the end differs from that of a pass without
      faults exactly if the account was not registered yet, and there is no later pass to make up for it. */
  lemma SwallowedLookup(st: Store, p: Snap, fault: Fault)
    requires Holds(st, p) && Valid(p.cr.spec) && !ClaimMissing(st.c, p.n, p.cr.spec) && Finalizes(p.cr)
    ensures var r := Exec(At(st, LookingUpCrd(p), [fault]));
            && r.pc == Finished(Ok(false))
            && (p.cr.finalizers == [FINALIZER] ==> p.n !in r.st.c.crs)
            && (r.st.c == FullPass(st.c, p.n).0 <==> fault.Fine? || SccDone(st.c, p.n.ns))
  {
    hide Build, Required, ClaimMissing, Matched;
    var a := At(st, LookingUpCrd(p), [fault]);
    LastRemoved();
    if fault.Fine? {
      assert Ticked(a) == Ticked(Calm(st, LookingUpCrd(p)));
      assert Exec(a) == Exec(Calm(st, LookingUpCrd(p)));
      ValidPass(st, p);
    } else {
      assert Ticked(a) == Calm(st, AfterScc(p));
      var st1 := AllObjectsRun(st, p);
      ReachesExec(Calm(st, AfterScc(p)), Calm(st1, AfterEnsure(p)));
      FinishRun(st1, p);
      EnsuredSccDone(st.c, p.n.ns);
    }
  }

  lemma LastRemoved()
    ensures Without([FINALIZER], FINALIZER) == []
  {
  }

  /** The fault that meets the Get of the binding. */
  function BindingFault(c: Cluster, faults: seq<Fault>): Fault {
    First(if First(faults).Fine? && ROLE_KEY in c.objs then Rest(Rest(faults)) else Rest(faults))
  }

  lemma RemovalOutcome(st: Store, p: Snap, faults: seq<Fault>)
    requires Holds(st, p) && p.cr.deleting && p.cr.finalizers == [FINALIZER]
    ensures var r := Exec(At(st, RemovingFinalizer(p), faults));
            && r.st.c.objs == st.c.objs
            && (First(faults).Fine? ==> p.n !in r.st.c.crs && r.pc == Finished(Ok(false)))
  {
    hide Build;
    var d := At(st, RemovingFinalizer(p), faults);
    LastRemoved();
    SetCrStored(st, p.n, p.cr.(finalizers := []));
    assert Exec(d) == Exec(Ticked(d)) == Ticked(d);
  }

  /** What a cleanup leaves behind, under any faults at all its calls: if the resource goes, each cluster role is
      still there exactly if it was there and the Get that looked for it failed. */
  lemma SwallowedGetsLeak(st: Store, p: Snap, faults: seq<Fault>)
    requires Holds(st, p) && p.cr.deleting && p.cr.finalizers == [FINALIZER]
    ensures var r := Exec(At(st, ReadingRole(p), faults));
            p.n !in r.st.c.crs ==>
              && (ROLE_KEY in r.st.c.objs <==> ROLE_KEY in st.c.objs && !First(faults).Fine?)
              && (BINDING_KEY in r.st.c.objs <==> BINDING_KEY in st.c.objs && !BindingFault(st.c, faults).Fine?)
              && r.st.c.objs - {ROLE_KEY, BINDING_KEY} == st.c.objs - {ROLE_KEY, BINDING_KEY}
  {
    hide Ticked, Reaches;
    var b := RoleStage(st, p, faults);
    ReachesExec(At(st, ReadingRole(p), faults), b);
    if b.pc == ReadingBinding(p) {
      var d := BindingStage(b.st, p, b.faults);
      ReachesExec(b, d);
      if d.pc == RemovingFinalizer(p) {
        RemovalOutcome(d.st, p, d.faults);
      }
    }
  }

  /** The family that fails, exactly: with nothing but the two Gets disturbed the resource always goes without an
      error, and with both objects there at the start it goes clean if and only if neither Get fails. */
  lemma CleanIffGetsSucceed(st: Store, p: Snap, f: Fault, g: Fault)
    requires Holds(st, p) && p.cr.deleting && p.cr.finalizers == [FINALIZER]
    ensures var c, faults := st.c, [f] + (if f.Fine? && ROLE_KEY in st.c.objs then [Fine] else []) + [g];
            var r := Exec(At(st, ReadingRole(p), faults));
            && p.n !in r.st.c.crs && r.pc == Finished(Ok(false))
            && (RolesAbsent(r.st.c) <==> (f.Fine? || ROLE_KEY !in c.objs) && (g.Fine? || BINDING_KEY !in c.objs))
            && (ROLE_KEY in c.objs && BINDING_KEY in c.objs ==> (RolesAbsent(r.st.c) <==> f.Fine? && g.Fine?))
  {
    hide Ticked, Reaches, Exec;
    var faults := [f] + (if f.Fine? && ROLE_KEY in st.c.objs then [Fine] else []) + [g];
    var b := RoleStage(st, p, faults);
    assert b.faults == [g];
    var d := BindingStage(b.st, p, b.faults);
    ReachesExec(At(st, ReadingRole(p), faults), b);
    ReachesExec(b, d);
    RemovalOutcome(d.st, p, d.faults);
    SwallowedGetsLeak(st, p, faults);
  }
}
