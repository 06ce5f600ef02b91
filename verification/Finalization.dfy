/** Finalization safety: a resource guarded by the operator's finalizer alone takes the cluster roles with it. */
module Finalization {
  import opened Objects
  import opened Protocol

  /** The resource carries this finalizer or none. */
  predicate NoForeignFinalizer(c: Cluster, n: CrName) {
    n in c.crs ==> c.crs[n].finalizers == [FINALIZER] || (c.crs[n].finalizers == [] && !c.crs[n].deleting)
  }

  /** Others may do anything except change the finalizers of `n`, make it with a foreign one, or create the cluster
      roles. */
  predicate Respects(n: CrName, c: Cluster, edit: Edit) {
    match edit
    case WriteCr(m, cr) =>
      m == n ==>
        if n in c.crs then cr.finalizers == c.crs[n].finalizers
        else cr.finalizers == [] || cr.finalizers == [FINALIZER]
    case WriteObj(k, _) => k != ROLE_KEY && k != BINDING_KEY
    case _ => true
  }

  /** Passes for any resources with any faults, except that the two Gets of the cleanup of `n` find what is there. */
  predicate Guarded(n: CrName, s: System, a: Action) {
    match a
    case Step(fault) =>
      && (s.pc.ReadingRole? && s.pc.p.n == n && ROLE_KEY in s.st.c.objs ==> fault.Fine?)
      && (s.pc.ReadingBinding? && s.pc.p.n == n && BINDING_KEY in s.st.c.objs ==> fault.Fine?)
    case Env(edit) => Respects(n, s.st.c, edit)
    case _ => true
  }

  ghost predicate Cleaning(s: System, n: CrName) {
    && Versioned(s) && Shaped(s.pc)
    && NoForeignFinalizer(s.st.c, n)
    && (InCleanup(s.pc) && s.pc.p.n == n ==>
      && (s.pc.ReadingBinding? || s.pc.DeletingBinding? ==> ROLE_KEY !in s.st.c.objs)
      && (s.pc.RemovingFinalizer? ==> RolesAbsent(s.st.c)))
  }

  lemma RemovalEmpties()
    ensures Without([FINALIZER], FINALIZER) == []
    ensures WithFinalizer([FINALIZER]) == WithFinalizer([]) == [FINALIZER]
  {
  }

  /** The cleanup itself: each stage is reached only with what is before it deleted. */
  lemma StageStep(st: Store, pc: Pc, fault: Fault)
    requires InCleanup(pc)
    requires pc.ReadingRole? && ROLE_KEY in st.c.objs ==> fault.Fine?
    requires pc.ReadingBinding? && BINDING_KEY in st.c.objs ==> fault.Fine?
    requires pc.ReadingBinding? || pc.DeletingBinding? ==> ROLE_KEY !in st.c.objs
    requires pc.RemovingFinalizer? ==> RolesAbsent(st.c)
    ensures var (st', pc') := Tick(st, pc, fault);
            && (pc'.ReadingBinding? || pc'.DeletingBinding? ==> ROLE_KEY !in st'.c.objs)
            && (pc'.RemovingFinalizer? ==> RolesAbsent(st'.c))
            && (pc.RemovingFinalizer? ==> pc'.Finished? && st'.c.objs == st.c.objs)
            && (HasSnap(pc') ==> pc'.p == pc.p)
  {
    hide Build, LookupKey, Current, RevOf;
  }

  lemma RemovalStep(s: System, n: CrName, fault: Fault)
    requires Cleaning(s, n) && s.pc.RemovingFinalizer?
    ensures var s' := Apply(s, Step(fault));
            && NoForeignFinalizer(s'.st.c, n)
            && (n in s.st.c.crs && n !in s'.st.c.crs ==> s.pc.p.n == n && FINALIZER in s.st.c.crs[n].finalizers)
  {
    RemovalEmpties();
  }

  lemma CleanupStep(s: System, n: CrName, fault: Fault)
    requires Cleaning(s, n) && Guarded(n, s, Step(fault)) && InCleanup(s.pc)
    ensures var s' := Apply(s, Step(fault));
            && Cleaning(s', n)
            && (n in s.st.c.crs && n !in s'.st.c.crs ==>
              FINALIZER in s.st.c.crs[n].finalizers && RolesAbsent(s'.st.c) && s'.pc.Finished?)
  {
    VersionedKept(s, Step(fault));
    ShapedKept(s, Step(fault));
    hide Build, Tick, Versioned, Shaped;
    CleanupSnap(s.st, s.pc, fault);
    if s.pc.p.n == n {
      StageStep(s.st, s.pc, fault);
    }
    if s.pc.RemovingFinalizer? {
      RemovalStep(s, n, fault);
    } else {
      OnlyUpdatesWrite(s.st, s.pc, fault);
    }
  }

  lemma CleanupSnap(st: Store, pc: Pc, fault: Fault)
    requires InCleanup(pc)
    ensures var pc' := Tick(st, pc, fault).1; HasSnap(pc') ==> pc'.p == pc.p
  {
  }

  lemma UpdateStep(s: System, n: CrName, fault: Fault)
    requires Cleaning(s, n) && (s.pc.WritingStatus? || s.pc.AddingFinalizer?)
    ensures var s' := Apply(s, Step(fault)); Cleaning(s', n) && (n in s.st.c.crs ==> n in s'.st.c.crs)
  {
    VersionedKept(s, Step(fault));
    RemovalEmpties();
  }

  lemma QuietStep(st: Store, pc: Pc, fault: Fault)
    requires !pc.Finished? && !InCleanup(pc) && !pc.WritingStatus? && !pc.AddingFinalizer?
    ensures var (st', pc') := Tick(st, pc, fault);
            && st'.c.crs == st.c.crs
            && !pc'.DeletingRole? && !pc'.ReadingBinding? && !pc'.DeletingBinding? && !pc'.RemovingFinalizer?
  {
  }

  lemma CleaningStep(s: System, n: CrName, fault: Fault)
    requires Cleaning(s, n) && Guarded(n, s, Step(fault)) && !s.pc.Finished?
    ensures var s' := Apply(s, Step(fault));
            && Cleaning(s', n)
            && (n in s.st.c.crs && n !in s'.st.c.crs ==>
              FINALIZER in s.st.c.crs[n].finalizers && RolesAbsent(s'.st.c) && s'.pc.Finished?)
  {
    VersionedKept(s, Step(fault));
    ShapedKept(s, Step(fault));
    if InCleanup(s.pc) {
      CleanupStep(s, n, fault);
    } else if s.pc.WritingStatus? || s.pc.AddingFinalizer? {
      UpdateStep(s, n, fault);
    } else {
      QuietStep(s.st, s.pc, fault);
    }
  }

  lemma EditLeaves(st: Store, n: CrName, edit: Edit)
    requires NoForeignFinalizer(st.c, n) && Respects(n, st.c, edit)
    ensures var c' := ApplyEdit(st, edit).c;
            && NoForeignFinalizer(c', n)
            && (n in st.c.crs && n !in c'.crs ==> FINALIZER !in st.c.crs[n].finalizers && c'.objs == st.c.objs)
  {
    hide SetScc, SetObj, DropObj;
    if !edit.WriteCr? && !edit.DeleteCr? {
      OtherEdits(st, edit);
    }
  }

  lemma OtherEdits(st: Store, edit: Edit)
    requires !edit.WriteCr? && !edit.DeleteCr?
    ensures ApplyEdit(st, edit).c.crs == st.c.crs
  {
  }

  lemma EditRoles(st: Store, n: CrName, edit: Edit)
    requires Respects(n, st.c, edit)
    ensures var c' := ApplyEdit(st, edit).c;
            (ROLE_KEY !in st.c.objs ==> ROLE_KEY !in c'.objs) && (BINDING_KEY !in st.c.objs ==> BINDING_KEY !in c'.objs)
  {
  }

  lemma EditCleaning(s: System, n: CrName, edit: Edit)
    requires Cleaning(s, n) && Respects(n, s.st.c, edit)
    ensures Cleaning(Apply(s, Env(edit)), n)
    ensures n in s.st.c.crs && n !in Apply(s, Env(edit)).st.c.crs ==>
              FINALIZER !in s.st.c.crs[n].finalizers && Apply(s, Env(edit)).st.c.objs == s.st.c.objs
  {
    VersionedKept(s, Env(edit));
    ShapedKept(s, Env(edit));
    hide Versioned, Shaped, ApplyEdit, NoForeignFinalizer, Respects;
    EditLeaves(s.st, n, edit);
    EditRoles(s.st, n, edit);
  }

  lemma CleaningKept(s: System, n: CrName, a: Action)
    requires Cleaning(s, n) && Guarded(n, s, a)
    ensures Cleaning(Apply(s, a), n)
    ensures n in s.st.c.crs && n !in Apply(s, a).st.c.crs ==>
              if FINALIZER in s.st.c.crs[n].finalizers then RolesAbsent(Apply(s, a).st.c) && Apply(s, a).pc.Finished?
              else Apply(s, a).st.c.objs == s.st.c.objs
  {
    hide Tick, ApplyEdit, Versioned, Shaped, Respects;
    match a
    case Step(fault) =>
      if !s.pc.Finished? {
        CleaningStep(s, n, fault);
      }
    case Env(edit) => EditCleaning(s, n, edit);
    case _ =>
      VersionedKept(s, a);
      ShapedKept(s, a);
  }

  lemma CleaningRun(s: System, n: CrName, actions: seq<Action>)
    requires Cleaning(s, n) && Admitted(s, actions, (s, a) => Guarded(n, s, a))
    ensures Cleaning(Run(s, actions), n)
  {
    var inv, ok := s => Cleaning(s, n), (s, a) => Guarded(n, s, a);
    forall s, a | inv(s) && ok(s, a) ensures inv(Apply(s, a)) {
      CleaningKept(s, n, a);
    }
    Induct(s, actions, inv, ok);
  }

  // ---------------------------------------------------------------- after the last resource

  predicate Unattended(s: System) {
    s.st.c.crs == map[] && RolesAbsent(s.st.c) && (s.pc.Finished? || s.pc.Fetching?)
  }

  predicate NoRevival(s: System, a: Action) {
    match a
    case Env(WriteCr(_, _)) => false
    case Env(WriteObj(k, _)) => k != ROLE_KEY && k != BINDING_KEY
    case _ => true
  }

  lemma UnattendedKept(s: System, a: Action)
    requires Unattended(s) && NoRevival(s, a)
    ensures Unattended(Apply(s, a))
  {
  }

  // ---------------------------------------------------------------- the theorems

  /** Exactly which departures are clean, in any run with any number of other resources: whenever the resource
      leaves the store, neither cluster role exists if and only if it still carried the finalizer at that moment or
      neither existed anyway. If it carried the finalizer and was the last resource, they stay absent however the
      run goes on. */
  lemma LeavesClean(s: System, n: CrName, actions: seq<Action>, a: Action, later: seq<Action>)
    requires Bounded(s.st) && s.pc.Finished? && NoForeignFinalizer(s.st.c, n)
    requires Admitted(s, actions, (s, a) => Guarded(n, s, a)) && Guarded(n, Run(s, actions), a)
    requires n in Run(s, actions).st.c.crs && n !in Apply(Run(s, actions), a).st.c.crs
    ensures var now, gone := Run(s, actions), Apply(Run(s, actions), a);
            && (RolesAbsent(gone.st.c) <==> FINALIZER in now.st.c.crs[n].finalizers || RolesAbsent(now.st.c))
            && (FINALIZER !in now.st.c.crs[n].finalizers ==> gone.st.c.objs == now.st.c.objs)
            && (FINALIZER in now.st.c.crs[n].finalizers && gone.st.c.crs == map[] ==>
              Admitted(gone, later, NoRevival) ==> RolesAbsent(Run(gone, later).st.c))
  {
    hide Build, CallOf;
    CleaningRun(s, n, actions);
    var now, gone := Run(s, actions), Apply(Run(s, actions), a);
    CleaningKept(now, n, a);
    if FINALIZER in now.st.c.crs[n].finalizers && gone.st.c.crs == map[] && Admitted(gone, later, NoRevival) {
      StaysClean(gone, later);
    }
  }

  lemma StaysClean(gone: System, later: seq<Action>)
    requires Unattended(gone) && Admitted(gone, later, NoRevival)
    ensures RolesAbsent(Run(gone, later).st.c)
  {
    forall s, a | Unattended(s) && NoRevival(s, a) ensures Unattended(Apply(s, a)) {
      UnattendedKept(s, a);
    }
    Induct(gone, later, Unattended, NoRevival);
  }
}
