/** Exactly when cluster roles outlive the resource they were made for, and the family of deletions that does it. */
module Orphans {
  import opened Objects
  import opened Protocol
  import opened Convergence
  import opened Faults
  import opened Ownership
  import opened Departures

  // ---------------------------------------------------------------- exactly when

  /** The operator goes on alone, with any faults and crashes. */
  predicate Onward(n: CrName, uid: string, s: System, a: Action) {
    OnlyTenant(n, uid, s, a) && !a.Env?
  }

  ghost predicate OnwardRun(s: System, n: CrName, uid: string, later: seq<Action>) {
    Admitted(s, later, (s, a) => Onward(n, uid, s, a))
  }

  predicate WillNot(s: System, n: CrName) {
    n !in s.st.c.crs && Shaped(s.pc) && !WillCreateRole(s, n)
  }

  lemma WillNotKept(s: System, n: CrName, uid: string, a: Action)
    requires WillNot(s, n) && Onward(n, uid, s, a)
    ensures WillNot(Apply(s, a), n) && CreatedBy(s, n, a) * ROLES == {} && RolesUntouched(s, a)
  {
    hide Tick, Build, Early, Proceeds, Shaped, RolesUntouched;
    AbsentStays(s, n, a);
    ShapedKept(s, a);
    if CreatedBy(s, n, a) * ROLES != {} {
      CreatorWill(s, n, a);
    }
    if a.Step? {
      StepUntouched(s, a.fault);
      if WillCreateRole(Apply(s, a), n) {
        NeverWill(s, n, a.fault);
      }
    } else {
      RestUntouched(s, a);
    }
  }

  lemma RestUntouched(s: System, a: Action)
    requires a.Start? || a.Crash?
    ensures RolesUntouched(s, a)
  {
  }

  lemma WillNotForever(s: System, n: CrName, uid: string, left: set<Key>, later: seq<Action>)
    requires WillNot(s, n) && NoRoleLeft(left, s.st.c, uid) && left <= s.st.c.objs.Keys && OnwardRun(s, n, uid, later)
    ensures NoRoleLeft(Survivors(s, n, left, later), Run(s, later).st.c, uid)
  {
    hide WillNot, Onward, CreatedBy, RolesUntouched;
    var safe, ok := s => WillNot(s, n), (s, a) => Onward(n, uid, s, a);
    forall s, a | safe(s) && ok(s, a)
      ensures safe(Apply(s, a)) && CreatedBy(s, n, a) * ROLES == {} && RolesUntouched(s, a)
    {
      WillNotKept(s, n, uid, a);
    }
    StaysWithoutRoles(s, n, uid, left, later, safe, ok);
  }

  /** What the rest of a pass without faults does from the SCC step on. */
  lemma SccRest(st: Store, pc: Pc) returns (st': Store)
    requires pc.LookingUpCrd? || pc.ReadingScc? || pc.CreatingScc? || pc.AppendingScc?
    requires Proceeds(st, pc)
    ensures Reaches(Calm(st, pc), Calm(st', AfterEnsure(pc.p)))
    ensures st'.c.objs == Required(pc.p.n, pc.p.cr) + st.c.objs && st'.c.crs == st.c.crs && st'.crRevs == st.crRevs
  {
    hide Build, Required, ClaimMissing, Reaches;
    var st1 := st;
    if pc.LookingUpCrd? {
      st1 := SccRun(st, pc.p);
    } else if pc.ReadingScc? {
      st1 := ReadingSccRun(st, pc.p);
    } else {
      st1 := SccWrite(st, pc);
    }
    ClaimStillMissing(st.c, st1.c, pc.p.n, pc.p.cr.spec);
    st' := AllObjectsRun(st1, pc.p);
    ReachesTrans(Calm(st, pc), Calm(st1, AfterScc(pc.p)), Calm(st', AfterEnsure(pc.p)));
  }

  lemma SccWrite(st: Store, pc: Pc) returns (st': Store)
    requires (pc.CreatingScc? || pc.AppendingScc?) && Proceeds(st, pc)
    ensures Reaches(Calm(st, pc), Calm(st', AfterScc(pc.p)))
    ensures st'.c.objs == st.c.objs && st'.c.crs == st.c.crs && st'.crRevs == st.crRevs
  {
    st' := Effect(st, CallOf(pc)).0;
    CalmTick(st, pc);
  }

  lemma ObjectsRest(st: Store, pc: Pc) returns (st': Store)
    requires (pc.Reading? || pc.Creating?) && Proceeds(st, pc) && Shaped(pc)
    ensures Reaches(Calm(st, pc), Calm(st', AfterEnsure(pc.p)))
    ensures st'.c.objs == RequiredFrom(pc.p.n, pc.p.cr, pc.kind) + st.c.objs
    ensures st'.c.crs == st.c.crs && st'.crRevs == st.crRevs
  {
    hide Build, RequiredFrom, ClaimMissing, Reaches, AfterEnsure;
    if pc.Reading? {
      st' := ObjectsRun(st, pc.p, pc.kind);
    } else {
      st' := CreatingRest(st, pc.p, pc.kind);
    }
  }

  lemma CreatingRest(st: Store, p: Snap, kind: Kind) returns (st': Store)
    requires Managed(p.cr.spec, kind) && LookupKey(p.n, p.cr.spec, kind) !in st.c.objs
    ensures Reaches(Calm(st, Creating(p, kind)), Calm(st', AfterEnsure(p)))
    ensures st'.c.objs == RequiredFrom(p.n, p.cr, kind) + st.c.objs
    ensures st'.c.crs == st.c.crs && st'.crRevs == st.crRevs
  {
    hide RequiredFrom, ClaimMissing, Reaches, AfterEnsure, After;
    var st1 := CreateOne(st, p, kind);
    hide Build, LookupKey;
    AddedThenLater(p.n, p.cr, kind, st.c.objs);
    AfterKind(p, kind);
    RankStep(kind, kind);
    if kind == StorageClass {
      st' := st1;
      assert map[] + st1.c.objs == st1.c.objs;
    } else {
      NotFirst(kind);
      st' := ObjectsRun(st1, p, Following(kind));
      ReachesTrans(Calm(st, Creating(p, kind)), Calm(st1, Reading(p, Following(kind))), Calm(st', AfterEnsure(p)));
    }
  }

  lemma NotFirst(kind: Kind)
    requires kind != StorageClass
    ensures Following(kind) != Pvc
  {
  }

  lemma CreateOne(st: Store, p: Snap, kind: Kind) returns (st': Store)
    requires Managed(p.cr.spec, kind) && LookupKey(p.n, p.cr.spec, kind) !in st.c.objs
    ensures Reaches(Calm(st, Creating(p, kind)), Calm(st', After(p, kind)))
    ensures st'.c == st.c.(objs := Added(st.c.objs, p.n, p.cr, kind)) && st'.crRevs == st.crRevs
  {
    hide BuildDeployment, BuildPvc;
    BuiltWhereLookedUp(p.n, p.cr, kind);
    st' := SetObj(st, Build(p.n, p.cr, kind).key, Build(p.n, p.cr, kind).obj);
    CalmTick(st, Creating(p, kind));
  }

  /** What the rest of the managers adds. */
  function AheadObjects(pc: Pc): map<Key, Object>
    requires HasSnap(pc)
  {
    if pc.Reading? || pc.Creating? then RequiredFrom(pc.p.n, pc.p.cr, pc.kind)
    else if PastScc(pc) then map[]
    else Required(pc.p.n, pc.p.cr)
  }

  /** The rest of the managers, left alone from wherever the pass is. */
  lemma ManagersRest(st: Store, pc: Pc) returns (st': Store)
    requires HasSnap(pc) && !pc.WritingStatus? && !InCleanup(pc) && Proceeds(st, pc) && Shaped(pc)
    ensures Reaches(Calm(st, pc), Calm(st', AfterEnsure(pc.p)))
    ensures st'.c.objs == AheadObjects(pc) + st.c.objs && st'.c.crs == st.c.crs && st'.crRevs == st.crRevs
  {
    hide Required, RequiredFrom, Proceeds, Reaches, Build, LookupKey;
    if pc.Reading? || pc.Creating? {
      st' := ObjectsRest(st, pc);
    } else if pc.AddingFinalizer? {
      st' := st;
      ReachesSelf(Calm(st, pc));
      assert map[] + st.c.objs == st.c.objs;
    } else {
      st' := SccRest(st, pc);
    }
  }

  lemma AheadRoles(pc: Pc)
    requires HasSnap(pc) && pc.p.n.ns != "" && !pc.WritingStatus?
    ensures var ahead := AheadObjects(pc);
            && (AheadRank(pc) >= 6 ==> ROLE_KEY in ahead && ahead[ROLE_KEY].owner == None)
            && (AheadRank(pc) >= 5 ==> BINDING_KEY in ahead && ahead[BINDING_KEY].owner == None)
            && (ROLE_KEY in ahead ==> ahead[ROLE_KEY].owner == None)
            && (BINDING_KEY in ahead ==> ahead[BINDING_KEY].owner == None)
  {
    hide Required, RequiredFrom, BuildDeployment, BuildPvc;
    var n, cr := pc.p.n, pc.p.cr;
    if pc.Reading? || pc.Creating? {
      RequiredFromMeaning(n, cr, pc.kind, ROLE_KEY);
      RequiredFromMeaning(n, cr, pc.kind, BINDING_KEY);
    } else {
      RequiredMeaning(n, cr, ROLE_KEY);
      RequiredMeaning(n, cr, BINDING_KEY);
    }
  }

  // ---------------------------------------------------------------- the witness

  /** The first `i` steps of a pass without faults. */
  function CalmSteps(i: nat): seq<Action> {
    if i == 0 then [] else [Step(Fine)] + CalmSteps(i - 1)
  }

  lemma {:induction false} CalmStepsRun(st: Store, pc: Pc, i: nat)
    ensures var b := TickedBy(Calm(st, pc), i); Run(System(st, pc), CalmSteps(i)) == System(b.st, b.pc)
    decreases i
  {
    hide Build, Tick;
    if i != 0 {
      var b := Ticked(Calm(st, pc));
      assert CalmSteps(i)[1..] == CalmSteps(i - 1);
      assert b == Calm(b.st, b.pc) && Apply(System(st, pc), Step(Fine)) == System(b.st, b.pc);
      CalmStepsRun(b.st, b.pc, i - 1);
    }
  }

  lemma {:induction false} CalmStepsAdmitted(s: System, n: CrName, uid: string, i: nat)
    ensures Admitted(s, CalmSteps(i), (s, a) => Living(n, uid, s, a))
    ensures OnwardRun(s, n, uid, CalmSteps(i))
    decreases i
  {
    if i != 0 {
      assert CalmSteps(i)[1..] == CalmSteps(i - 1);
      CalmStepsAdmitted(Apply(s, Step(Fine)), n, uid, i - 1);
    }
  }

  /** The run is about this resource only, and nobody writes objects. */
  predicate Only(n: CrName, a: Action) {
    a.Step? || a == Start(n) || a == Env(DeleteCr(n))
  }

  /** Whatever such a run finds new, its passes have created. */
  lemma {:induction false} NewSurvives(s: System, n: CrName, left: set<Key>, actions: seq<Action>, k: Key)
    requires (s.pc.Fetching? ==> s.pc.n == n) && (HasSnap(s.pc) ==> s.pc.p.n == n)
    requires forall a :: a in actions ==> Only(n, a)
    requires (k in s.st.c.objs ==> k in left) && k in Run(s, actions).st.c.objs
    ensures k in Survivors(s, n, left, actions)
    decreases |actions|
  {
    hide Tick, Build;
    if actions != [] {
      var a, s' := actions[0], Apply(s, actions[0]);
      assert a in actions;
      if a.Step? && !s.pc.Finished? {
        NextName(s.st, s.pc, a.fault);
        if k in s'.st.c.objs {
          StepAdds(s.st, s.pc, a.fault, k);
        }
      }
      NewSurvives(s', n, StillLeft(s, n, left, a), actions[1..], k);
    }
  }

  lemma {:induction false} CalmStepsOnly(n: CrName, i: nat)
    ensures forall a :: a in CalmSteps(i) ==> Only(n, a)
  {
    if i != 0 {
      CalmStepsOnly(n, i - 1);
    }
  }

  /** A pass that will create a role does so when it is left alone, and the role belongs to nobody. */
  lemma WillDoes(s: System, n: CrName, uid: string, left: set<Key>) returns (later: seq<Action>)
    requires n.ns != "" && WillCreateRole(s, n) && Shaped(s.pc)
    ensures OnwardRun(s, n, uid, later)
    ensures !NoRoleLeft(Survivors(s, n, left, later), Run(s, later).st.c, uid)
  {
    hide Proceeds, Shaped, AheadObjects, Reaches, Build, LookupKey, Tick;
    EarlyManagers(s.pc);
    var st' := ManagersRest(s.st, s.pc);
    AheadRoles(s.pc);
    var i := StepsTo(s.st, s.pc, st', AfterEnsure(s.pc.p));
    later := CalmSteps(i);
    CalmStepsAdmitted(s, n, uid, i);
    CalmStepsOnly(n, i);
    var k := if ROLE_KEY !in s.st.c.objs && AheadRank(s.pc) >= 6 then ROLE_KEY else BINDING_KEY;
    NewSurvives(s, n, left, later, k);
    assert k in Survivors(s, n, left, later) * ROLES && k in Collected(st'.c.objs, uid).Keys;
  }

  lemma EarlyManagers(pc: Pc)
    requires Early(pc)
    ensures HasSnap(pc) && !pc.WritingStatus? && !InCleanup(pc)
  {
  }

  lemma StepsTo(st: Store, pc: Pc, st': Store, pc': Pc) returns (i: nat)
    requires Reaches(Calm(st, pc), Calm(st', pc'))
    ensures Run(System(st, pc), CalmSteps(i)) == System(st', pc')
  {
    i :| TickedBy(Calm(st, pc), i) == Calm(st', pc');
    CalmStepsRun(st, pc, i);
  }

  // ---------------------------------------------------------------- the theorem

  /** However the operator goes on by itself, only storage classes are left. */
  ghost predicate CleanForGood(s: System, n: CrName, uid: string, left: set<Key>) {
    forall later :: OnwardRun(s, n, uid, later) ==>
      OnlyStorageClasses(Survivors(s, n, left, later), Run(s, later).st.c, uid)
  }

  lemma {:induction false} OnwardTenant(s: System, n: CrName, uid: string, later: seq<Action>)
    requires OnwardRun(s, n, uid, later)
    ensures Admitted(s, later, (s, a) => OnlyTenant(n, uid, s, a))
    decreases |later|
  {
    if later != [] {
      OnwardTenant(Apply(s, later[0]), n, uid, later[1..]);
    }
  }

  lemma CleanIff(gone: System, n: CrName, uid: string, left: set<Key>, created: set<Key>)
    requires n.ns != "" && n !in gone.st.c.crs && Versioned(gone) && Shaped(gone.pc)
    requires Owned(gone, n, uid, created) && left <= created && left <= gone.st.c.objs.Keys
    ensures CleanForGood(gone, n, uid, left) <==> NoRoleLeft(left, gone.st.c, uid) && !WillCreateRole(gone, n)
  {
    hide Owned, WillCreateRole, Survivors, Versioned, OnwardRun;
    if NoRoleLeft(left, gone.st.c, uid) && !WillCreateRole(gone, n) {
      forall later | OnwardRun(gone, n, uid, later)
        ensures OnlyStorageClasses(Survivors(gone, n, left, later), Run(gone, later).st.c, uid)
      {
        WillNotForever(gone, n, uid, left, later);
        OnwardTenant(gone, n, uid, later);
        AfterlifeOwned(gone, n, uid, created, left, later);
      }
    } else {
      var later := NotClean(gone, n, uid, left);
      OnwardTenant(gone, n, uid, later);
      AfterlifeOwned(gone, n, uid, created, left, later);
    }
  }

  /** Exactly when an absent resource has left a clean cluster for good, after any run: with any faults, any finalizers
      and anything done by others outside its namespace. However the operator goes on by itself, of all that passes
      for the resource created only storage classes stay, if and only if none of the cluster roles they created is
      left and no pass in progress will create one. */
  lemma CleanDepartures(s: System, n: CrName, uid: string, actions: seq<Action>)
    requires Bounded(s.st) && s.pc.Finished? && n.ns != "" && (n in s.st.c.crs ==> s.st.c.crs[n].uid == uid)
    requires Admitted(s, actions, (s, a) => OnlyTenant(n, uid, s, a)) && n !in Run(s, actions).st.c.crs
    ensures var gone, left := Run(s, actions), Survivors(s, n, {}, actions);
            CleanForGood(gone, n, uid, left) <==> NoRoleLeft(left, gone.st.c, uid) && !WillCreateRole(gone, n)
  {
    hide Owned, WillCreateRole, Survivors, Created, OnlyTenant;
    NothingOwned(s, n, uid);
    OwnedRun(s, n, uid, {}, actions);
    ShapedRun(s, actions);
    SurvivorsWereCreated(s, n, {}, actions);
    SurvivorsExist(s, n, {}, actions);
    CleanIff(Run(s, actions), n, uid, Survivors(s, n, {}, actions), {} + Created(s, n, actions));
  }

  lemma NothingOwned(s: System, n: CrName, uid: string)
    requires s.pc.Finished? && (n in s.st.c.crs ==> s.st.c.crs[n].uid == uid)
    ensures Owned(s, n, uid, {})
  {
  }

  /** For guarded lives, whose cleanup Gets find what is there and which end without a foreign finalizer, the condition
      can be read off the resource: the finalizer was still on it, or nothing was left and nothing is to come. */
  lemma GuardedDepartures(l: Life)
    requires l.IsLife()
    ensures CleanForGood(l.Gone(), l.n, l.uid, l.Left()) <==>
            || l.HadFinalizer()
            || (NoRoleLeft(l.Left(), l.Gone().st.c, l.uid) && !WillCreateRole(l.Gone(), l.n))
  {
    hide Living, Owned, WillCreateRole, Survivors, Versioned, OnwardRun;
    LifeOwned(l);
    LifeLeft(l);
    DepartureKinds(l);
    if l.HadFinalizer() {
      RolesGone(l.Gone(), l.n, l.Left(), l.uid);
      FinishedWillNot(l.Gone(), l.n);
    }
    CleanIff(l.Gone(), l.n, l.uid, l.Left(), l.Created());
  }

  lemma FinishedWillNot(s: System, n: CrName)
    requires s.pc.Finished?
    ensures !WillCreateRole(s, n)
  {
  }

  lemma NotClean(s: System, n: CrName, uid: string, left: set<Key>) returns (later: seq<Action>)
    requires n.ns != "" && Shaped(s.pc)
    requires !NoRoleLeft(left, s.st.c, uid) || WillCreateRole(s, n)
    ensures OnwardRun(s, n, uid, later)
    ensures !NoRoleLeft(Survivors(s, n, left, later), Run(s, later).st.c, uid)
  {
    if WillCreateRole(s, n) {
      later := WillDoes(s, n, uid, left);
    } else {
      later := [];
    }
  }

  // ---------------------------------------------------------------- deleted too early

  ghost predicate UnownedRoles(c: Cluster) {
    forall k :: k in ROLES && k in c.objs ==> c.objs[k].owner == None
  }

  /** A pass without faults for a new resource, before the finalizer is added. */
  ghost predicate UnderWay(st0: Store, n: CrName, s: System) {
    && Sync(s, n)
    && (s.pc.Fetching? ==> s.st == st0)
    && (HasSnap(s.pc) ==>
      && n in st0.c.crs && s.pc.p.cr == st0.c.crs[n] && s.st.c.crs == st0.c.crs
      && !ClaimMissing(s.st.c, n, st0.c.crs[n].spec) && UnownedRoles(s.st.c))
  }

  lemma RolesUnowned(n: CrName, cr: Cr, kind: Kind)
    ensures n.ns != "" && Build(n, cr, kind).key in ROLES ==> Build(n, cr, kind).obj.owner == None
  {
  }

  lemma UnownedStep(st: Store, pc: Pc)
    requires HasSnap(pc) && pc.p.n.ns != "" && UnownedRoles(st.c)
    ensures UnownedRoles(Tick(st, pc, Fine).0.c)
  {
    hide Build, Tick;
    var c' := Tick(st, pc, Fine).0.c;
    forall k | k in ROLES && k in c'.objs ensures c'.objs[k].owner == None {
      StepAdds(st, pc, Fine, k);
      if pc.Creating? {
        RolesUnowned(pc.p.n, pc.p.cr, pc.kind);
      }
    }
  }

  lemma UpdatesFinish(st: Store, pc: Pc)
    requires Updates(pc)
    ensures Tick(st, pc, Fine).1.Finished?
  {
  }

  /** The fields of a new resource whose passes can get to their end. */
  ghost predicate IsNew(st: Store, n: CrName) {
    && n.ns != "" && n in st.c.crs && st.c.crs[n].finalizers == [] && !st.c.crs[n].deleting
    && Valid(st.c.crs[n].spec) && !ClaimMissing(st.c, n, st.c.crs[n].spec)
  }

  lemma UnderWayStep(st0: Store, n: CrName, s: System)
    requires IsNew(st0, n) && RolesAbsent(st0.c) && UnderWay(st0, n, s)
    ensures UnderWay(st0, n, Apply(s, Step(Fine)))
  {
    hide Tick, SccSync, ObjSync, ClaimMissing, UnownedRoles;
    SyncStep(s, n, Fine);
    if s.pc.Fetching? {
      FetchNew(st0, n);
    } else if Updates(s.pc) {
      UpdatesFinish(s.st, s.pc);
    } else if HasSnap(s.pc) {
      NextName(s.st, s.pc, Fine);
      OnlyUpdatesWrite(s.st, s.pc, Fine);
      ObjectsStay(s.st, s.pc, Fine);
      ClaimStillMissing(s.st.c, Tick(s.st, s.pc, Fine).0.c, n, st0.c.crs[n].spec);
      UnownedStep(s.st, s.pc);
    }
  }

  lemma FetchNew(st0: Store, n: CrName)
    requires IsNew(st0, n) && RolesAbsent(st0.c)
    ensures var (st', pc') := Tick(st0, Fetching(n), Fine);
            st' == st0 && UnownedRoles(st'.c) && pc' == LookingUpCrd(Snap(n, RevOf(st0, n), st0.c.crs[n]))
  {
  }

  lemma {:induction false} UnderWayRun(st0: Store, n: CrName, s: System, i: nat)
    requires IsNew(st0, n) && RolesAbsent(st0.c) && UnderWay(st0, n, s)
    ensures UnderWay(st0, n, Run(s, CalmSteps(i)))
    decreases i
  {
    hide UnderWay, IsNew, Tick;
    if i != 0 {
      assert CalmSteps(i)[1..] == CalmSteps(i - 1);
      UnderWayStep(st0, n, s);
      UnderWayRun(st0, n, Apply(s, Step(Fine)), i - 1);
    }
  }

  /** The deletion changes nothing that the rest of the managers looks at. */
  lemma DeletionUnnoticed(st0: Store, n: CrName, now: System)
    requires IsNew(st0, n) && UnderWay(st0, n, now) && HasSnap(now.pc)
    ensures var gone := Apply(now, Env(DeleteCr(n)));
            && gone.pc == now.pc && n in now.st.c.crs && gone.st.c == now.st.c.(crs := now.st.c.crs - {n})
            && Proceeds(gone.st, gone.pc) && !gone.pc.WritingStatus? && !InCleanup(gone.pc) && Shaped(gone.pc)
  {
    hide Present, Account, Build;
  }

  lemma PresentRoles(c: Cluster, pc: Pc)
    requires PastScc(pc) && !InCleanup(pc) && Present(c, pc.p.n, pc.p.cr, RankAt(pc), false)
    ensures (RankAt(pc) < 6 ==> ROLE_KEY in c.objs) && (RankAt(pc) < 5 ==> BINDING_KEY in c.objs)
  {
    hide Required;
    RoleRequired(pc.p.n, pc.p.cr);
    assert KindRank(ROLE_KEY.kind) == 6 && KindRank(BINDING_KEY.kind) == 5;
  }

  /** What the rest of the pass leaves. */
  lemma RestOfPass(st0: Store, n: CrName, now: System) returns (end: Store)
    requires IsNew(st0, n) && UnderWay(st0, n, now) && HasSnap(now.pc)
    ensures var gone := Apply(now, Env(DeleteCr(n)));
            && Run(gone, Steps(Calm(gone.st, gone.pc))) == System(end, Finished(Err))
            && n !in end.c.crs && ROLES <= end.c.objs.Keys && UnownedRoles(end.c)
  {
    hide AheadObjects, Proceeds, Build, LookupKey, Reaches, Ticked;
    var gone := Apply(now, Env(DeleteCr(n)));
    DeletionUnnoticed(st0, n, now);
    end := ManagersRest(gone.st, gone.pc);
    AheadRoles(gone.pc);
    if PastScc(now.pc) {
      PresentRoles(now.st.c, now.pc);
    }
    ReachesExec(Calm(gone.st, gone.pc), Calm(end, AddingFinalizer(gone.pc.p)));
    AddingFails(end, gone.pc.p);
    PassIsRun(Calm(gone.st, gone.pc));
  }

  lemma AddingFails(st: Store, p: Snap)
    requires p.n !in st.c.crs
    ensures Exec(Calm(st, AddingFinalizer(p))) == Calm(st, Finished(Err))
  {
    var a := Calm(st, AddingFinalizer(p));
    assert Ticked(a) == Calm(st, Finished(Err));
    assert Exec(a) == Exec(Ticked(a));
  }

  lemma {:induction false} StepsOnly(n: CrName, a: Config)
    ensures forall x :: x in Steps(a) ==> Only(n, x)
    decreases Rank(a.pc)
  {
    hide Ticked;
    if !a.pc.Finished? {
      StepsOnly(n, Ticked(a));
    }
  }

  /** The life of a new resource that is deleted after `i` calls of its first pass. */
  function ShortLife(st: Store, last: Result, n: CrName, uid: string, i: nat): Life {
    Life(System(st, Finished(last)), n, uid, [], [Start(n)] + CalmSteps(i), Env(DeleteCr(n)))
  }

  lemma ShortLifeNow(st: Store, last: Result, n: CrName, uid: string, i: nat)
    ensures ShortLife(st, last, n, uid, i).Now() == Run(System(st, Fetching(n)), CalmSteps(i))
  {
    assert ([Start(n)] + CalmSteps(i))[1..] == CalmSteps(i);
  }

  lemma ShortLifeIsLife(st: Store, last: Result, n: CrName, uid: string, i: nat)
    requires Bounded(st) && IsNew(st, n) && RolesAbsent(st.c) && st.c.crs[n].uid == uid
    requires HasSnap(ShortLife(st, last, n, uid, i).Now().pc)
    ensures ShortLife(st, last, n, uid, i).IsLife() && UnderWay(st, n, ShortLife(st, last, n, uid, i).Now())
  {
    hide Tick, Build, Proceeds;
    ShortLifeNow(st, last, n, uid, i);
    var l := ShortLife(st, last, n, uid, i);
    assert l.actions[1..] == CalmSteps(i);
    CalmStepsAdmitted(System(st, Fetching(n)), n, uid, i);
    UnderWayRun(st, n, System(st, Fetching(n)), i);
    DeletionUnnoticed(st, n, l.Now());
  }

  lemma RolesSurvive(l: Life, rest: seq<Action>)
    requires l.before == [] && l.s.pc.Finished? && RolesAbsent(l.s.st.c) && l.a == Env(DeleteCr(l.n))
    requires (forall a :: a in l.actions ==> Only(l.n, a)) && (forall a :: a in rest ==> Only(l.n, a))
    requires InProgress(l.Now().pc, l.n)
    requires ROLES <= Run(l.Gone(), rest).st.c.objs.Keys
    ensures ROLES <= Survivors(l.Gone(), l.n, l.Left(), rest)
  {
    hide Tick, Build, Survivors, Only;
    var left := Survivors(l.s, l.n, {}, l.actions);
    NothingYet(l.s, l.n);
    forall k | k in ROLES ensures k in Survivors(l.Gone(), l.n, l.Left(), rest) {
      if k in l.Now().st.c.objs {
        NewSurvives(l.s, l.n, {}, l.actions, k);
      }
      assert l.Gone().st.c.objs == l.Now().st.c.objs;
      NewSurvives(l.Gone(), l.n, l.Left(), rest, k);
    }
  }

  lemma NothingYet(s: System, n: CrName)
    ensures Survivors(s, n, {}, []) == {} && Run(s, []) == s
  {
  }

  /** The family that is not clean, deletion by deletion: whenever a new resource is deleted between two calls of its
      first pass, at any place from its validation to the call that would add its finalizer, it is gone at once, the
      rest of the pass goes on to its end, and both cluster roles that the pass has made stay, owned by nobody. */
  lemma DeletedTooEarly(st: Store, last: Result, n: CrName, uid: string, i: nat)
    requires Bounded(st) && IsNew(st, n) && RolesAbsent(st.c) && st.c.crs[n].uid == uid
    requires HasSnap(ShortLife(st, last, n, uid, i).Now().pc)
    ensures var l := ShortLife(st, last, n, uid, i);
            var rest := Steps(Calm(l.Gone().st, l.Gone().pc));
            var end := Run(l.Gone(), rest);
            && l.IsLife() && !l.HadFinalizer()
            && end.pc == Finished(Err) && n !in end.st.c.crs
            && ROLES <= Survivors(l.Gone(), n, l.Left(), rest) && ROLES <= Collected(end.st.c.objs, uid).Keys
  {
    hide Tick, Build, UnderWay, Survivors, Steps;
    var l := ShortLife(st, last, n, uid, i);
    ShortLifeIsLife(st, last, n, uid, i);
    var rest := Steps(Calm(l.Gone().st, l.Gone().pc));
    var end := RestOfPass(st, n, l.Now());
    CalmStepsOnly(n, i);
    StepsOnly(n, Calm(l.Gone().st, l.Gone().pc));
    NewResource(st, n, l.Now());
    RolesSurvive(l, rest);
  }

  lemma NewResource(st: Store, n: CrName, now: System)
    requires IsNew(st, n) && UnderWay(st, n, now) && HasSnap(now.pc)
    ensures now.pc.p.n == n && n in now.st.c.crs && FINALIZER !in now.st.c.crs[n].finalizers
  {
  }
}
