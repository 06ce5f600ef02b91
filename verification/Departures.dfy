/** What the passes for a resource leave behind when it goes: at that moment, and after whatever a pass in progress
    still does. */
module Departures {
  import opened Objects
  import opened Protocol
  import opened Convergence
  import opened Faults
  import opened Finalization
  import opened Ownership

  // ---------------------------------------------------------------- survivors

  /** The keys of the objects that passes for `n` have created and nobody has deleted since. */
  function Survivors(s: System, n: CrName, left: set<Key>, actions: seq<Action>): set<Key>
    decreases |actions|
  {
    if actions == [] then left
    else Survivors(Apply(s, actions[0]), n, StillLeft(s, n, left, actions[0]), actions[1..])
  }

  function StillLeft(s: System, n: CrName, left: set<Key>, a: Action): set<Key> {
    left * Apply(s, a).st.c.objs.Keys + CreatedBy(s, n, a)
  }

  lemma LeftExists(s: System, n: CrName, left: set<Key>, a: Action)
    ensures StillLeft(s, n, left, a) <= Apply(s, a).st.c.objs.Keys
  {
  }

  lemma {:induction false} SurvivorsExist(s: System, n: CrName, left: set<Key>, actions: seq<Action>)
    requires left <= s.st.c.objs.Keys
    ensures Survivors(s, n, left, actions) <= Run(s, actions).st.c.objs.Keys
    decreases |actions|
  {
    hide StillLeft;
    if actions != [] {
      LeftExists(s, n, left, actions[0]);
      SurvivorsExist(Apply(s, actions[0]), n, StillLeft(s, n, left, actions[0]), actions[1..]);
    }
  }

  const ROLES := {ROLE_KEY, BINDING_KEY}

  lemma {:induction false} SurvivorsWereCreated(s: System, n: CrName, left: set<Key>, actions: seq<Action>)
    ensures Survivors(s, n, left, actions) <= left + Created(s, n, actions)
    decreases |actions|
  {
    hide CreatedBy;
    if actions != [] {
      SurvivorsWereCreated(Apply(s, actions[0]), n, StillLeft(s, n, left, actions[0]), actions[1..]);
    }
  }

  /** Once the resource has gone and what it owned is collected, only storage classes are left of these objects (the
      SCC is kept apart from the other objects and stays too). */
  ghost predicate OnlyStorageClasses(left: set<Key>, c: Cluster, uid: string) {
    forall k :: k in left && k in Collected(c.objs, uid) ==> k.kind == StorageClass
  }

  ghost predicate NoRoleLeft(left: set<Key>, c: Cluster, uid: string) {
    left * ROLES !! Collected(c.objs, uid).Keys
  }

  lemma LeftOver(left: set<Key>, s: System, n: CrName, uid: string, created: set<Key>)
    requires Owned(s, n, uid, created) && left <= created
    ensures OnlyStorageClasses(left, s.st.c, uid) <==> NoRoleLeft(left, s.st.c, uid)
  {
    if OnlyStorageClasses(left, s.st.c, uid) {
      forall k | k in left * ROLES ensures k !in Collected(s.st.c.objs, uid) {
      }
    }
  }

  // ---------------------------------------------------------------- the life up to the departure

  predicate Living(n: CrName, uid: string, s: System, a: Action) {
    Guarded(n, s, a) && OnlyTenant(n, uid, s, a)
  }

  lemma {:induction false} LivingEach(s: System, n: CrName, uid: string, actions: seq<Action>)
    requires Admitted(s, actions, (s, a) => Living(n, uid, s, a))
    ensures Admitted(s, actions, (s, a) => Guarded(n, s, a))
    ensures Admitted(s, actions, (s, a) => OnlyTenant(n, uid, s, a))
    decreases |actions|
  {
    if actions != [] {
      LivingEach(Apply(s, actions[0]), n, uid, actions[1..]);
    }
  }

  /** A life: `before`, with anything done to the finalizers of the resource and to the cluster roles; then `actions`,
      from a moment at which nobody else's finalizer is on it; then its departure by `a`. */
  datatype Life = Life(s: System, n: CrName, uid: string, before: seq<Action>, actions: seq<Action>, a: Action) {
    function Mid(): System {
      Run(s, before)
    }

    function Now(): System {
      Run(Mid(), actions)
    }

    function Gone(): System {
      Apply(Now(), a)
    }

    /** What is left at the moment of the departure. */
    function Left(): set<Key> {
      var left := Survivors(Mid(), n, Survivors(s, n, {}, before), actions);
      StillLeft(Now(), n, left, a)
    }

    predicate HadFinalizer()
      requires n in Now().st.c.crs
    {
      FINALIZER in Now().st.c.crs[n].finalizers
    }

    ghost predicate IsLife() {
      && Bounded(s.st) && s.pc.Finished? && n.ns != "" && (n in s.st.c.crs ==> s.st.c.crs[n].uid == uid)
      && Admitted(s, before, (s, a) => OnlyTenant(n, uid, s, a))
      && Mid().pc.Finished? && NoForeignFinalizer(Mid().st.c, n)
      && Admitted(Mid(), actions, (s, a) => Living(n, uid, s, a)) && Living(n, uid, Now(), a)
      && n in Now().st.c.crs && n !in Gone().st.c.crs
    }

    function Created(): set<Key> {
      Ownership.Created(s, n, before) + Ownership.Created(Mid(), n, actions) + CreatedBy(Now(), n, a)
    }
  }

  lemma LifeOwned(l: Life)
    requires l.IsLife()
    ensures Versioned(l.Mid()) && Versioned(l.Gone()) && Shaped(l.Gone().pc) && Owned(l.Gone(), l.n, l.uid, l.Created())
    ensures l.Left() <= l.Created()
  {
    hide Guarded, OnlyTenant, NoForeignFinalizer, Apply;
    var s1, now := l.Mid(), l.Now();
    OwnedRun(l.s, l.n, l.uid, {}, l.before);
    LivingEach(s1, l.n, l.uid, l.actions);
    var created := {} + Ownership.Created(l.s, l.n, l.before);
    OwnedRun(s1, l.n, l.uid, created, l.actions);
    var created' := created + Ownership.Created(s1, l.n, l.actions);
    VersionedKept(now, l.a);
    IdentityKept(now, l.n, l.uid, l.a);
    ObjectsKept(now, l.n, l.uid, created', l.a);
    assert created' + CreatedBy(now, l.n, l.a) == l.Created();
    SurvivorsWereCreated(l.s, l.n, {}, l.before);
    SurvivorsWereCreated(s1, l.n, Survivors(l.s, l.n, {}, l.before), l.actions);
    ShapedRun(s1, l.actions);
    ShapedKept(now, l.a);
  }

  lemma LifeLeft(l: Life)
    ensures l.Left() <= l.Gone().st.c.objs.Keys
  {
    LeftExists(l.Now(), l.n, Survivors(l.Mid(), l.n, Survivors(l.s, l.n, {}, l.before), l.actions), l.a);
  }

  lemma {:induction false} ShapedRun(s: System, actions: seq<Action>)
    requires Shaped(s.pc)
    ensures Shaped(Run(s, actions).pc)
    decreases |actions|
  {
    hide Shaped;
    if actions != [] {
      ShapedKept(s, actions[0]);
      ShapedRun(Apply(s, actions[0]), actions[1..]);
    }
  }

  /** With the finalizer, the operator's own removal is the departure and no role is left; without it, somebody
      else's deletion is, and no object changes. */
  lemma DepartureKinds(l: Life)
    requires l.IsLife()
    ensures l.HadFinalizer() ==> RolesAbsent(l.Gone().st.c) && l.Gone().pc.Finished?
    ensures !l.HadFinalizer() ==> l.Gone().st.c.objs == l.Now().st.c.objs
  {
    hide OnlyTenant, Guarded, NoForeignFinalizer, Owned, Apply;
    LifeOwned(l);
    LivingEach(l.Mid(), l.n, l.uid, l.actions);
    CleaningRun(l.Mid(), l.n, l.actions);
    CleaningKept(l.Now(), l.n, l.a);
  }

  // ---------------------------------------------------------------- what a pass in progress still does

  /** The pass has not got beyond the cluster roles yet. */
  predicate Early(pc: Pc) {
    || pc.LookingUpCrd? || pc.ReadingScc? || pc.CreatingScc? || pc.AppendingScc?
    || ((pc.Reading? || pc.Creating?) && KindRank(pc.kind) >= 5)
  }

  predicate InProgress(pc: Pc, n: CrName) {
    HasSnap(pc) && pc.p.n == n
  }

  /** The rank of the first kind that is still to be ensured. */
  function AheadRank(pc: Pc): int {
    if PastScc(pc) then RankAt(pc) else 8
  }

  predicate RoleMissing(c: Cluster, rank: int) {
    (ROLE_KEY !in c.objs && rank >= 6) || (BINDING_KEY !in c.objs && rank >= 5)
  }

  /** Left alone, the rest of the managers comes to its end. */
  predicate Proceeds(st: Store, pc: Pc)
    requires HasSnap(pc)
  {
    && (pc.CreatingScc? ==> st.c.scc.None?)
    && (pc.AppendingScc? ==> st.c.scc.Some? && st.sccRev == pc.rev)
    && (pc.Creating? ==> LookupKey(pc.p.n, pc.p.cr.spec, pc.kind) !in st.c.objs)
    && (AheadRank(pc) == 8 ==> !ClaimMissing(st.c, pc.p.n, pc.p.cr.spec))
  }

  /** A pass for `n` is in progress that will create a cluster role if it is left alone. */
  predicate WillCreateRole(s: System, n: CrName) {
    InProgress(s.pc, n) && Early(s.pc) && Proceeds(s.st, s.pc) && RoleMissing(s.st.c, AheadRank(s.pc))
  }

  lemma EarlyNext(st: Store, pc: Pc, fault: Fault)
    requires HasSnap(pc)
    ensures var pc' := Tick(st, pc, fault).1;
            HasSnap(pc') ==> pc'.p == pc.p && AheadRank(pc') <= AheadRank(pc) && (Early(pc') ==> Early(pc))
  {
    hide Build, LookupKey, ClaimMissing;
  }

  /** Before the cleanup no object is deleted. */
  lemma ObjectsStay(st: Store, pc: Pc, fault: Fault)
    requires !pc.Finished? && !InCleanup(pc)
    ensures st.c.objs.Keys <= Tick(st, pc, fault).0.c.objs.Keys
  {
    hide Build, LookupKey;
  }

  lemma ClaimStillMissing(c: Cluster, c': Cluster, n: CrName, spec: Spec)
    requires c.objs.Keys <= c'.objs.Keys
    ensures ClaimMissing(c', n, spec) ==> ClaimMissing(c, n, spec)
  {
  }

  /** The managers proceed after a call only if they proceeded before it. */
  lemma ProceedsBefore(st: Store, pc: Pc, fault: Fault)
    requires HasSnap(pc) && Early(pc) && Shaped(pc)
    requires var (st', pc') := Tick(st, pc, fault); Early(pc') && Proceeds(st', pc')
    ensures Proceeds(st, pc)
  {
    hide BuildDeployment, Account;
    if pc.Creating? {
      BuiltWhereLookedUp(pc.p.n, pc.p.cr, pc.kind);
    }
    if AheadRank(pc) == 8 {
      ClaimBefore(st, pc, fault);
    }
  }

  lemma ClaimBefore(st: Store, pc: Pc, fault: Fault)
    requires HasSnap(pc) && Early(pc) && Shaped(pc) && AheadRank(pc) == 8
    requires var (st', pc') := Tick(st, pc, fault); Early(pc') && Proceeds(st', pc')
    ensures !ClaimMissing(st.c, pc.p.n, pc.p.cr.spec)
  {
    hide BuildDeployment, Account;
  }

  lemma AbsentStays(s: System, n: CrName, a: Action)
    requires n !in s.st.c.crs && !(a.Env? && a.edit.WriteCr? && a.edit.n == n)
    ensures n !in Apply(s, a).st.c.crs
  {
    hide Build, LookupKey;
    if a.Step? && !s.pc.Finished? {
      TickStore(s.st, s.pc, a.fault);
    }
  }

  /** A pass that will create no role never comes to do so. */
  lemma NeverWill(s: System, n: CrName, fault: Fault)
    requires Shaped(s.pc) && n !in s.st.c.crs && WillCreateRole(Apply(s, Step(fault)), n)
    ensures WillCreateRole(s, n)
  {
    hide Tick, Proceeds, Early, AheadRank, Shaped;
    if s.pc.Fetching? {
      NotFetched(s.st, s.pc.n, fault);
    } else {
      EarlyNext(s.st, s.pc, fault);
      NotCleaning(s.pc);
      ObjectsStay(s.st, s.pc, fault);
      ProceedsBefore(s.st, s.pc, fault);
    }
  }

  lemma NotCleaning(pc: Pc)
    ensures Early(pc) ==> !InCleanup(pc) && HasSnap(pc)
  {
  }

  lemma NotFetched(st: Store, n: CrName, fault: Fault)
    ensures var pc' := Tick(st, Fetching(n), fault).1; HasSnap(pc') ==> pc'.p.n == n && n in st.c.crs
  {
  }

  lemma BuiltKind(n: CrName, cr: Cr, kind: Kind)
    ensures Build(n, cr, kind).key.kind == kind
    ensures kind == ClusterRole ==> Build(n, cr, kind).key == LookupKey(n, cr.spec, kind) == ROLE_KEY
    ensures kind == ClusterRoleBinding ==> Build(n, cr, kind).key == LookupKey(n, cr.spec, kind) == BINDING_KEY
  {
  }

  /** Whatever creates a role was bound to. */
  lemma CreatorWill(s: System, n: CrName, a: Action)
    requires CreatedBy(s, n, a) * ROLES != {}
    ensures WillCreateRole(s, n)
  {
    hide Build, LookupKey, Tick, ClaimMissing;
    var k :| k in CreatedBy(s, n, a) * ROLES;
    BuiltKind(s.pc.p.n, s.pc.p.cr, s.pc.kind);
    StepAdds(s.st, s.pc, a.fault, k);
  }

  predicate RolesUntouched(s: System, a: Action) {
    forall k :: k in ROLES && k in s.st.c.objs && k in Apply(s, a).st.c.objs ==>
      Apply(s, a).st.c.objs[k] == s.st.c.objs[k]
  }

  /** If no action creates a role for `n` or rewrites one, what is clean stays clean. */
  lemma {:induction false} StaysWithoutRoles(
    s: System, n: CrName, uid: string, left: set<Key>, later: seq<Action>,
    safe: System -> bool, ok: (System, Action) -> bool)
    requires forall s, a :: safe(s) && ok(s, a) ==>
               safe(Apply(s, a)) && CreatedBy(s, n, a) * ROLES == {} && RolesUntouched(s, a)
    requires safe(s) && Admitted(s, later, ok) && NoRoleLeft(left, s.st.c, uid) && left <= s.st.c.objs.Keys
    ensures NoRoleLeft(Survivors(s, n, left, later), Run(s, later).st.c, uid)
    ensures Created(s, n, later) * ROLES == {}
    decreases |later|
  {
    hide CreatedBy;
    if later != [] {
      var s', left' := Apply(s, later[0]), StillLeft(s, n, left, later[0]);
      assert safe(s) && ok(s, later[0]);
      LeftExists(s, n, left, later[0]);
      var made := CreatedBy(s, n, later[0]);
      assert made * ROLES == {};
      forall k | k in left' * ROLES ensures k !in Collected(s'.st.c.objs, uid) {
        assert k !in made by {
          assert k in made ==> k in made * ROLES;
        }
        assert k in left && k !in Collected(s.st.c.objs, uid);
      }
      StaysWithoutRoles(s', n, uid, left', later[1..], safe, ok);
    }
  }

  // ---------------------------------------------------------------- nothing left, whatever others do

  /** The resource stays away, nobody else makes cluster roles or writes in its namespace. */
  predicate Afterlife(n: CrName, uid: string, s: System, a: Action) {
    Living(n, uid, s, a) && !(a.Env? && a.edit.WriteCr? && a.edit.n == n)
  }

  predicate Late(s: System, n: CrName) {
    n !in s.st.c.crs && (InProgress(s.pc, n) ==> !Early(s.pc))
  }

  lemma StepUntouched(s: System, fault: Fault)
    ensures RolesUntouched(s, Step(fault))
  {
    if !s.pc.Finished? {
      forall k | k in ROLES && k in s.st.c.objs && k in Apply(s, Step(fault)).st.c.objs
        ensures Apply(s, Step(fault)).st.c.objs[k] == s.st.c.objs[k]
      {
        StepAdds(s.st, s.pc, fault, k);
      }
    }
  }

  lemma LateKept(s: System, n: CrName, uid: string, a: Action)
    requires Late(s, n) && Afterlife(n, uid, s, a)
    ensures Late(Apply(s, a), n) && CreatedBy(s, n, a) * ROLES == {} && RolesUntouched(s, a)
  {
    hide Tick, Build, Early, WillCreateRole;
    AbsentStays(s, n, a);
    if a.Step? {
      StepUntouched(s, a.fault);
      if s.pc.Fetching? {
        NotFetched(s.st, s.pc.n, a.fault);
      } else if HasSnap(s.pc) {
        EarlyNext(s.st, s.pc, a.fault);
      }
      if CreatedBy(s, n, a) * ROLES != {} {
        CreatorWill(s, n, a);
        WillIsEarly(s, n);
      }
    }
  }

  lemma WillIsEarly(s: System, n: CrName)
    ensures WillCreateRole(s, n) ==> InProgress(s.pc, n) && Early(s.pc)
  {
  }

  /** With no pass for the absent resource in progress, nothing is ever created for it. */
  lemma {:induction false} NothingMore(s: System, n: CrName, uid: string, later: seq<Action>)
    requires n !in s.st.c.crs && !InProgress(s.pc, n)
    requires Admitted(s, later, (s, a) => Afterlife(n, uid, s, a))
    ensures Created(s, n, later) == {}
    decreases |later|
  {
    hide Tick, Build, Living;
    if later != [] {
      var a := later[0];
      AbsentStays(s, n, a);
      if a.Step? && s.pc.Fetching? {
        NotFetched(s.st, s.pc.n, a.fault);
      } else if a.Step? && HasSnap(s.pc) {
        EarlyNext(s.st, s.pc, a.fault);
      }
      NothingMore(Apply(s, a), n, uid, later[1..]);
    }
  }

  lemma {:induction false} AfterlifeOwned(
    s: System, n: CrName, uid: string, created: set<Key>, left: set<Key>, later: seq<Action>)
    requires n.ns != "" && Versioned(s) && Owned(s, n, uid, created) && left <= created
    requires Admitted(s, later, (s, a) => OnlyTenant(n, uid, s, a))
    ensures var end := Run(s, later);
            OnlyStorageClasses(Survivors(s, n, left, later), end.st.c, uid) <==>
            NoRoleLeft(Survivors(s, n, left, later), end.st.c, uid)
  {
    OwnedRun(s, n, uid, created, later);
    SurvivorsWereCreated(s, n, left, later);
    LeftOver(Survivors(s, n, left, later), Run(s, later), n, uid, created + Created(s, n, later));
  }

  lemma {:induction false} AfterlifeAdmitted(s: System, n: CrName, uid: string, later: seq<Action>)
    requires Admitted(s, later, (s, a) => Afterlife(n, uid, s, a))
    ensures Admitted(s, later, (s, a) => OnlyTenant(n, uid, s, a))
    decreases |later|
  {
    if later != [] {
      AfterlifeAdmitted(Apply(s, later[0]), n, uid, later[1..]);
    }
  }

  /** Cleanup coverage over the whole life of a resource and after it, whoever writes in between. If it still
      carried the finalizer when it went, or none of the cluster roles its passes created was left and no pass for
      it was on its way to them, then of all that its passes ever create only storage classes are left. Nothing
      more is created if it carried the finalizer or no pass for it is in progress. The last clause counts at the
      moment of the departure everything that was ever created, also by others since. */
  lemma NothingLeft(l: Life, later: seq<Action>)
    requires l.IsLife() && Admitted(l.Gone(), later, (s, a) => Afterlife(l.n, l.uid, s, a))
    ensures var gone := l.Gone();
            && (l.HadFinalizer() || (NoRoleLeft(l.Left(), gone.st.c, l.uid) && Late(gone, l.n)) ==>
              && OnlyStorageClasses(Survivors(gone, l.n, l.Left(), later), Run(gone, later).st.c, l.uid)
              && Created(gone, l.n, later) * ROLES == {})
            && (l.HadFinalizer() || !InProgress(gone.pc, l.n) ==> Created(gone, l.n, later) == {})
            && (OnlyStorageClasses(l.Created(), gone.st.c, l.uid) <==>
              l.HadFinalizer() || NoRoleLeft(l.Created(), l.Now().st.c, l.uid))
  {
    hide Living, Owned, Late, Survivors, Created, Versioned;
    var gone := l.Gone();
    LifeLeft(l);
    LifeOwned(l);
    DepartureKinds(l);
    AfterlifeAdmitted(gone, l.n, l.uid, later);
    AfterlifeOwned(gone, l.n, l.uid, l.Created(), l.Left(), later);
    if l.HadFinalizer() || !InProgress(gone.pc, l.n) {
      NothingMore(gone, l.n, l.uid, later);
    }
    LeftOver(l.Created(), gone, l.n, l.uid, l.Created());
    if l.HadFinalizer() {
      RolesGone(gone, l.n, l.Left(), l.uid);
      RolesGone(gone, l.n, l.Created(), l.uid);
    }
    if l.HadFinalizer() || (NoRoleLeft(l.Left(), gone.st.c, l.uid) && Late(gone, l.n)) {
      LateForever(gone, l.n, l.uid, l.Left(), later);
    }
  }

  lemma RolesGone(gone: System, n: CrName, left: set<Key>, uid: string)
    requires RolesAbsent(gone.st.c) && gone.pc.Finished? && n !in gone.st.c.crs
    ensures NoRoleLeft(left, gone.st.c, uid) && Late(gone, n)
  {
  }

  lemma LateForever(s: System, n: CrName, uid: string, left: set<Key>, later: seq<Action>)
    requires Late(s, n) && NoRoleLeft(left, s.st.c, uid) && left <= s.st.c.objs.Keys
    requires Admitted(s, later, (s, a) => Afterlife(n, uid, s, a))
    ensures NoRoleLeft(Survivors(s, n, left, later), Run(s, later).st.c, uid)
    ensures Created(s, n, later) * ROLES == {}
  {
    hide Late, Afterlife, CreatedBy, RolesUntouched;
    var safe, ok := s => Late(s, n), (s, a) => Afterlife(n, uid, s, a);
    forall s, a | safe(s) && ok(s, a)
      ensures safe(Apply(s, a)) && CreatedBy(s, n, a) * ROLES == {} && RolesUntouched(s, a)
    {
      LateKept(s, n, uid, a);
    }
    StaysWithoutRoles(s, n, uid, left, later, safe, ok);
  }
}
