/** What the operator may change: a frame for every single call of every run, whoever else writes in between. */
module Frame {
  import opened Objects
  import opened Protocol
  import opened Convergence
  import opened Faults

  // ---------------------------------------------------------------- finalizer lists

  lemma {:induction false} WithoutAbsent(xs: seq<string>, s: string)
    requires s !in xs
    ensures Without(xs, s) == xs
  {
    if xs != [] {
      WithoutAbsent(xs[..|xs| - 1], s);
    }
  }

  /** Every other entry stays as often as it was, the entry itself goes. */
  lemma {:induction false} WithoutCounts(xs: seq<string>, s: string)
    ensures multiset(Without(xs, s)) == multiset(xs)[s := 0]
  {
    if xs != [] {
      WithoutCounts(xs[..|xs| - 1], s);
      assert xs == xs[..|xs| - 1] + [xs[|xs| - 1]];
    }
  }

  /** The filter works entry by entry, so the others keep their order. */
  lemma {:induction false} WithoutJoins(xs: seq<string>, ys: seq<string>, s: string)
    ensures Without(xs + ys, s) == Without(xs, s) + Without(ys, s)
  {
    if ys == [] {
      assert xs + ys == xs;
    } else {
      assert (xs + ys)[..|xs + ys| - 1] == xs + ys[..|ys| - 1];
      WithoutJoins(xs, ys[..|ys| - 1], s);
    }
  }

  lemma WithoutTwice(xs: seq<string>, s: string)
    ensures Without(Without(xs, s), s) == Without(xs, s)
  {
    WithoutRemoves(xs, s);
    WithoutAbsent(Without(xs, s), s);
  }

  /** Adding the finalizer disturbs no other one, and adding then removing it restores the list. */
  lemma AddThenRemove(xs: seq<string>)
    ensures Without(WithFinalizer(xs), FINALIZER) == Without(xs, FINALIZER)
    ensures FINALIZER !in xs ==> Without(WithFinalizer(xs), FINALIZER) == xs
    ensures xs <= WithFinalizer(xs) && FINALIZER in WithFinalizer(xs) && |WithFinalizer(xs)| <= |xs| + 1
  {
    if FINALIZER !in xs {
      assert (xs + [FINALIZER])[..|xs|] == xs;
      WithoutAbsent(xs, FINALIZER);
    }
  }

  function Occurrences(xs: seq<string>): nat {
    multiset(xs)[FINALIZER]
  }

  // ---------------------------------------------------------------- validation

  /** Validation rejects exactly the specs that set more than one storage option. A claim among them is reported
      first; the third rule never fires. */
  lemma ValidMeaning(spec: Spec)
    ensures Valid(spec) <==> StorageOptions(spec) <= 1
    ensures Validate(spec) == Some(OtherOptionWithPvc) <==> spec.pvc != "" && StorageOptions(spec) > 1
    ensures Validate(spec) == Some(OtherOptionWithHostPath) <==> spec.pvc == "" && StorageOptions(spec) > 1
    ensures Validate(spec) != Some(OtherOptionWithStorageClass)
  {
  }

  // ---------------------------------------------------------------- one call

  /** Apart from its status, a resource only ever has this operator's finalizer added or removed. */
  ghost predicate SameResource(cr: Cr, cr': Cr) {
    && cr'.uid == cr.uid && cr'.deleting == cr.deleting && cr'.spec == cr.spec
    && Without(cr'.finalizers, FINALIZER) == Without(cr.finalizers, FINALIZER)
    && (Occurrences(cr'.finalizers) <= 1 || cr'.finalizers == cr.finalizers)
  }

  /** No resource appears; one disappears only when it is under deletion and nobody else's finalizer is left. */
  ghost predicate CrsFrame(c: Cluster, c': Cluster) {
    && (forall n :: n in c'.crs ==> n in c.crs && SameResource(c.crs[n], c'.crs[n]))
    && (forall n :: n in c.crs && n !in c'.crs ==>
      c.crs[n].deleting && Without(c.crs[n].finalizers, FINALIZER) == [])
  }

  /** The SCC is created for one account, or one account that was not on it is appended to its users. */
  ghost predicate SccFrame(c: Cluster, c': Cluster, pc: Pc) {
    || c'.scc == c.scc
    || (pc.CreatingScc? && c.scc.None? && c'.scc == Some(BuildScc(pc.p.n.ns)))
    || (pc.AppendingScc? && c.scc.Some? && c'.scc == Some(Appended(c.scc.value, pc.p.n.ns))
        && Account(pc.p.n.ns) !in c.scc.value.users)
  }

  /** No other object is altered, none but the two cluster roles is deleted, and only during a cleanup; what is
      created is what the builders make of a valid spec. */
  ghost predicate ObjsFrame(c: Cluster, c': Cluster, pc: Pc) {
    && (forall k :: k in c.objs && k in c'.objs ==> c'.objs[k] == c.objs[k])
    && (forall k :: k in c.objs && k !in c'.objs ==> k in {ROLE_KEY, BINDING_KEY} && InCleanup(pc) && pc.p.cr.deleting)
    && (forall k :: k in c'.objs && k !in c.objs ==>
      && pc.Creating? && Valid(pc.p.cr.spec) && Managed(pc.p.cr.spec, pc.kind)
      && Manifest(k, c'.objs[k]) == Build(pc.p.n, pc.p.cr, pc.kind))
  }

  ghost predicate Framed(c: Cluster, c': Cluster, pc: Pc) {
    c'.crd == c.crd && CrsFrame(c, c') && SccFrame(c, c', pc) && ObjsFrame(c, c', pc)
  }

  lemma UpdateFramed(s: System, n: CrName, rev: nat, cr: Cr)
    requires Versioned(s) && HasSnap(s.pc) && s.pc.p.n == n && s.pc.p.rev == rev
    requires SameResource(s.pc.p.cr, cr)
    ensures CrsFrame(s.st.c, Effect(s.st, PutCr(n, rev, cr)).0.c)
  {
    var c' := Effect(s.st, PutCr(n, rev, cr)).0.c;
    if cr.finalizers == [] {
      assert Without(cr.finalizers, FINALIZER) == [];
    }
    if Current(s.st, n, rev) {
      SetCrStored(s.st, n, cr.(status := s.st.c.crs[n].status));
    }
  }

  lemma FinalizerUpdates(cr: Cr)
    ensures SameResource(cr, cr.(finalizers := WithFinalizer(cr.finalizers)))
    ensures SameResource(cr, cr.(finalizers := Without(cr.finalizers, FINALIZER)))
  {
    AddThenRemove(cr.finalizers);
    WithoutTwice(cr.finalizers, FINALIZER);
    WithoutCounts(cr.finalizers, FINALIZER);
  }

  lemma StatusFramed(st: Store, n: CrName, rev: nat, status: Status)
    ensures CrsFrame(st.c, Effect(st, PutStatus(n, rev, status)).0.c)
  {
    if Current(st, n, rev) {
      SetCrStored(st, n, st.c.crs[n].(status := status));
    }
  }

  lemma OtherCallsFramed(st: Store, call: Call)
    requires !call.PutCr? && !call.PutStatus?
    ensures Effect(st, call).0.c.crs == st.c.crs
  {
  }

  lemma CrsFramed(s: System)
    requires Versioned(s) && Shaped(s.pc) && !s.pc.Finished?
    ensures CrsFrame(s.st.c, Effect(s.st, CallOf(s.pc)).0.c)
  {
    if s.pc.AddingFinalizer? {
      FinalizerUpdates(s.pc.p.cr);
      UpdateFramed(s, s.pc.p.n, s.pc.p.rev, s.pc.p.cr.(finalizers := WithFinalizer(s.pc.p.cr.finalizers)));
    } else if s.pc.RemovingFinalizer? {
      FinalizerUpdates(s.pc.p.cr);
      UpdateFramed(s, s.pc.p.n, s.pc.p.rev, s.pc.p.cr.(finalizers := Without(s.pc.p.cr.finalizers, FINALIZER)));
    } else if s.pc.WritingStatus? {
      StatusFramed(s.st, s.pc.p.n, s.pc.p.rev, InvalidStatus(s.pc.p.cr.spec));
    } else {
      OtherCallsFramed(s.st, CallOf(s.pc));
    }
  }

  lemma SccFramed(s: System)
    requires Versioned(s) && Shaped(s.pc) && !s.pc.Finished?
    ensures SccFrame(s.st.c, Effect(s.st, CallOf(s.pc)).0.c, s.pc)
  {
    if s.pc.AppendingScc? {
      OwnEntryMatches(s.pc.p.n.ns);
    }
  }

  lemma ObjsUntouched(st: Store, call: Call)
    requires !call.CreateObj? && !call.DeleteObj?
    ensures Effect(st, call).0.c.objs == st.c.objs
  {
  }

  lemma ObjsFramed(pc: Pc, st: Store)
    requires Shaped(pc) && !pc.Finished?
    ensures ObjsFrame(st.c, Effect(st, CallOf(pc)).0.c, pc)
  {
    if pc.Creating? {
      var m := Build(pc.p.n, pc.p.cr, pc.kind);
      assert CallOf(pc) == CreateObj(m);
    } else if pc.DeletingRole? || pc.DeletingBinding? {
      assert CallOf(pc) == DeleteObj(if pc.DeletingRole? then ROLE_KEY else BINDING_KEY);
    } else {
      ObjsUntouched(st, CallOf(pc));
    }
  }

  // ---------------------------------------------------------------- whole runs

  predicate Reached(s: System) {
    Versioned(s) && Shaped(s.pc)
  }

  lemma ReachedRun(s: System, actions: seq<Action>)
    requires Reached(s)
    ensures Reached(Run(s, actions))
  {
    forall s, a | Reached(s) ensures Reached(Apply(s, a)) {
      VersionedKept(s, a);
      ShapedKept(s, a);
    }
    AllAdmitted(s, actions);
    Induct(s, actions, Reached, (s, a) => true);
  }

  lemma {:induction false} AllAdmitted(s: System, actions: seq<Action>)
    ensures Admitted(s, actions, (s, a) => true)
    decreases |actions|
  {
    if actions != [] {
      AllAdmitted(Apply(s, actions[0]), actions[1..]);
    }
  }

  lemma FramedSelf(c: Cluster, pc: Pc)
    ensures Framed(c, c, pc)
  {
  }

  lemma CrdFramed(st: Store, call: Call)
    ensures Effect(st, call).0.c.crd == st.c.crd
  {
  }

  lemma CallFramed(s: System, fault: Fault)
    requires Reached(s)
    ensures Framed(s.st.c, Apply(s, Step(fault)).st.c, s.pc)
  {
    hide Build, CallOf, Effect, CrsFrame, SccFrame, ObjsFrame, Versioned, Shaped;
    FramedSelf(s.st.c, s.pc);
    if !s.pc.Finished? {
      CrsFramed(s);
      SccFramed(s);
      ObjsFramed(s.pc, s.st);
      CrdFramed(s.st, CallOf(s.pc));
    }
  }

  /** The frame of every call, at every moment of every run, with anything done by anybody in between. */
  lemma EveryCallFramed(s: System, actions: seq<Action>, fault: Fault)
    requires Bounded(s.st) && s.pc.Finished?
    ensures var now := Run(s, actions); Framed(now.st.c, Apply(now, Step(fault)).st.c, now.pc)
  {
    ReachedRun(s, actions);
    CallFramed(Run(s, actions), fault);
  }

  /** What all calls of a run of the operator together leave as it was. */
  ghost predicate Preserves(c: Cluster, c': Cluster) {
    && (forall k :: k in c.objs && k !in {ROLE_KEY, BINDING_KEY} ==> k in c'.objs && c'.objs[k] == c.objs[k])
    && (c.scc.Some? ==>
      c'.scc.Some? && c'.scc.value.policy == c.scc.value.policy && c.scc.value.users <= c'.scc.value.users)
    && (forall n :: n in c'.crs ==>
      && n in c.crs
      && c'.crs[n].spec == c.crs[n].spec && c'.crs[n].uid == c.crs[n].uid && c'.crs[n].deleting == c.crs[n].deleting
      && Without(c'.crs[n].finalizers, FINALIZER) == Without(c.crs[n].finalizers, FINALIZER)
      && (Occurrences(c.crs[n].finalizers) <= 1 ==> Occurrences(c'.crs[n].finalizers) <= 1))
    && (forall n :: n in c.crs && n !in c'.crs ==> c.crs[n].deleting && Without(c.crs[n].finalizers, FINALIZER) == [])
  }

  lemma PreservesStep(c: Cluster, c1: Cluster, c2: Cluster, pc: Pc)
    requires Preserves(c, c1) && Framed(c1, c2, pc)
    ensures Preserves(c, c2)
  {
  }

  predicate Unaided(s: System, a: Action) {
    !a.Env?
  }

  lemma UnaidedStep(c: Cluster, s: System, a: Action)
    requires Reached(s) && Preserves(c, s.st.c) && Unaided(s, a)
    ensures Reached(Apply(s, a)) && Preserves(c, Apply(s, a).st.c)
  {
    VersionedKept(s, a);
    ShapedKept(s, a);
    if a.Step? && !s.pc.Finished? {
      CallFramed(s, a.fault);
      PreservesStep(c, s.st.c, Apply(s, a).st.c, s.pc);
    }
  }

  /** Over a whole run of the operator alone, for any number of resources and with any faults and crashes: no
      foreign object changes, users are only appended to the SCC, specs and foreign finalizers stay, and this
      finalizer is never listed twice if it was not. */
  lemma RunPreserves(s: System, actions: seq<Action>)
    requires Bounded(s.st) && s.pc.Finished? && Admitted(s, actions, Unaided)
    ensures Preserves(s.st.c, Run(s, actions).st.c)
  {
    var c := s.st.c;
    var inv := (s: System) => Reached(s) && Preserves(c, s.st.c);
    forall s, a | inv(s) && Unaided(s, a) ensures inv(Apply(s, a)) {
      UnaidedStep(c, s, a);
    }
    Induct(s, actions, inv, Unaided);
  }

  lemma WritingStatusOnly(st: Store, p: Snap, faults: seq<Fault>)
    requires Holds(st, p)
    ensures var c' := Exec(At(st, WritingStatus(p), faults)).st.c;
            c' == st.c || c' == Stored(st.c, p.n, p.cr.(status := InvalidStatus(p.cr.spec)))
  {
    SetCrStored(st, p.n, p.cr.(status := InvalidStatus(p.cr.spec)));
    var a := At(st, WritingStatus(p), faults);
    assert Exec(a) == Ticked(a);
  }

  /** A pass on an invalid spec writes at most the status of the resource, one that rejects the spec and names its
      options, and nothing more is done. */
  lemma InvalidPass(st: Store, n: CrName, faults: seq<Fault>)
    requires n in st.c.crs && !Valid(st.c.crs[n].spec)
    ensures var c' := Exec(At(st, Fetching(n), faults)).st.c;
            || c' == st.c
            || (exists status ::
                  Rejects(status, st.c.crs[n].spec) && c' == Stored(st.c, n, st.c.crs[n].(status := status)))
  {
    StatusRejects(st.c.crs[n].spec);
    var p := Snap(n, RevOf(st, n), st.c.crs[n]);
    var a := At(st, Fetching(n), faults);
    assert Exec(a) == Exec(Ticked(a));
    if First(faults).Fine? {
      assert Ticked(a) == At(st, WritingStatus(p), Rest(faults));
      WritingStatusOnly(st, p, Rest(faults));
    }
  }
}
