/** What the result of a pass means, whatever goes wrong on the way: success only when the work is done, an error
    exactly when something that the operator notices has failed. */
module Results {
  import opened Objects
  import opened Matching
  import opened Protocol
  import opened Convergence
  import opened Faults

  // ---------------------------------------------------------------- what is to be done

  /** The spec names a claim that is not there. */
  predicate NamedClaimMissing(c: Cluster, n: CrName, spec: Spec) {
    spec.hostPathDir == "" && spec.pvc != "" && Key(Pvc, n.ns, spec.pvc) !in c.objs
  }

  /** Every object that the managers look for exists. */
  ghost predicate AllThere(c: Cluster, n: CrName, spec: Spec) {
    && (forall kind :: Managed(spec, kind) ==> LookupKey(n, spec, kind) in c.objs)
    && !NamedClaimMissing(c, n, spec)
  }

  /** A rejected spec is reported and nothing else changes. */
  ghost predicate Reported(c: Cluster, n: CrName, c': Cluster)
    requires n in c.crs
  {
    && c'.objs == c.objs && c'.scc == c.scc
    && (n in c'.crs ==> Rejects(c'.crs[n].status, c.crs[n].spec))
    && (n !in c'.crs ==> c.crs[n].deleting && c.crs[n].finalizers == [])
  }

  /** A live resource is served: all objects, the finalizer and, if the definition lookup succeeded, the account. */
  ghost predicate Kept(c: Cluster, n: CrName, c': Cluster, looked: bool)
    requires n in c.crs
  {
    && n in c'.crs && c'.crs[n].spec == c.crs[n].spec && !c'.crs[n].deleting && FINALIZER in c'.crs[n].finalizers
    && AllThere(c', n, c.crs[n].spec) && (looked ==> SccDone(c', n.ns))
  }

  /** What a pass has done that reports success; `looked` says that its definition lookup succeeded. */
  ghost predicate WorkDone(c: Cluster, n: CrName, c': Cluster, looked: bool) {
    if n !in c.crs then c' == c
    else if StorageOptions(c.crs[n].spec) > 1 then Reported(c, n, c')
    else if !c.crs[n].deleting then Kept(c, n, c', looked)
    else n in c'.crs ==> FINALIZER !in c'.crs[n].finalizers
  }

  /** The pass asks to be called again: for live resources with a valid spec. */
  predicate Requeues(c: Cluster, n: CrName) {
    n in c.crs && StorageOptions(c.crs[n].spec) <= 1 && !c.crs[n].deleting
  }

  // ---------------------------------------------------------------- what the operator notices

  /** The calls whose failure the operator ignores. */
  predicate Ignored(pc: Pc) {
    pc.LookingUpCrd? || pc.ReadingRole? || pc.ReadingBinding?
  }

  /** Some other call of the rest of the pass fails. */
  predicate Disturbed(a: Config)
    decreases Rank(a.pc)
  {
    !a.pc.Finished? && ((!First(a.faults).Fine? && !Ignored(a.pc)) || Disturbed(Ticked(a)))
  }

  /** Whoever interferes: a failing call ends the pass with an error, unless it is one of those. */
  lemma FailedCallEnds(pc: Pc)
    requires !pc.Finished?
    ensures Next(pc, Failed) == Finished(Err) <==> !Ignored(pc)
  {
  }

  lemma OptionsValid(spec: Spec)
    ensures Valid(spec) <==> StorageOptions(spec) <= 1
  {
  }

  lemma ClaimIsNamed(c: Cluster, n: CrName, spec: Spec)
    ensures ClaimMissing(c, n, spec) <==> NamedClaimMissing(c, n, spec)
  {
  }

  // ---------------------------------------------------------------- the way to success

  ghost predicate SnapTrack(c: Cluster, n: CrName, looked: bool, st: Store, pc: Pc)
    requires HasSnap(pc)
  {
    && n in c.crs && pc.p.cr == c.crs[n] && st.c.crs == c.crs && st.c.crd == c.crd
    && (PastScc(pc) && looked ==> SccDone(st.c, n.ns))
    && (pc.WritingStatus? ==> st.c == c)
  }

  /** A pass that started on `c`. */
  ghost predicate OnTrack(c: Cluster, n: CrName, looked: bool, a: Config) {
    && Sync(System(a.st, a.pc), n)
    && (a.pc.Fetching? ==> a.st.c == c && (looked <==> First(Rest(a.faults)).Fine?))
    && (a.pc.LookingUpCrd? ==> (looked <==> First(a.faults).Fine?))
    && (HasSnap(a.pc) ==> SnapTrack(c, n, looked, a.st, a.pc))
    && (a.pc.Finished? && a.pc.result.Ok? ==>
      WorkDone(c, n, a.st.c, looked) && (a.pc.result.requeue <==> Requeues(c, n)))
  }

  lemma FetchTrack(c: Cluster, n: CrName, looked: bool, a: Config)
    requires OnTrack(c, n, looked, a) && a.pc.Fetching?
    ensures OnTrack(c, n, looked, Ticked(a))
  {
    FetchSync(a.st, n, First(a.faults));
    if n in c.crs {
      OptionsValid(c.crs[n].spec);
    }
  }

  lemma StatusTrack(c: Cluster, n: CrName, looked: bool, a: Config)
    requires OnTrack(c, n, looked, a) && a.pc.WritingStatus?
    ensures OnTrack(c, n, looked, Ticked(a))
  {
    hide SccSync, ObjSync;
    OptionsValid(c.crs[n].spec);
    StatusRejects(c.crs[n].spec);
    SetCrStored(a.st, n, c.crs[n].(status := InvalidStatus(c.crs[n].spec)));
  }

  lemma SccTrack(c: Cluster, n: CrName, looked: bool, st: Store, pc: Pc, fault: Fault)
    requires pc.LookingUpCrd? || pc.ReadingScc? || pc.CreatingScc? || pc.AppendingScc?
    requires Sync(System(st, pc), n) && SnapTrack(c, n, looked, st, pc)
    requires pc.LookingUpCrd? ==> (looked <==> fault.Fine?)
    ensures var (st', pc') := Tick(st, pc, fault);
            if HasSnap(pc') then SnapTrack(c, n, looked, st', pc') && !pc'.LookingUpCrd? else pc' == Finished(Err)
  {
    hide Build, BuildScc, Matched, ObjSync, Account;
    if pc.CreatingScc? || pc.AppendingScc? {
      AppendMatches(if pc.CreatingScc? then BuildScc(pc.p.n.ns) else pc.seen, pc.p.n.ns);
    }
  }

  lemma ManagerPresent(st: Store, pc: Pc, fault: Fault)
    requires (pc.Reading? || pc.Creating?) && ObjSync(st, pc)
    ensures var (st', pc') := Tick(st, pc, fault);
            && st'.c.crs == st.c.crs && st'.c.scc == st.c.scc && st'.c.crd == st.c.crd
            && (pc' == Finished(Err) || (pc' == Creating(pc.p, pc.kind) && st' == st)
                || (pc' == After(pc.p, pc.kind) && Present(st'.c, pc.p.n, pc.p.cr, KindRank(pc.kind) - 1, false)
                    && !ClaimMissing(st'.c, pc.p.n, pc.p.cr.spec)))
  {
    hide After, Required;
    BuiltWhereLookedUp(pc.p.n, pc.p.cr, pc.kind);
    hide Build;
    var (st', pc') := Tick(st, pc, fault);
    if pc' == After(pc.p, pc.kind) && LookupKey(pc.p.n, pc.p.cr.spec, pc.kind) in st'.c.objs {
      assert Present(st'.c, pc.p.n, pc.p.cr, KindRank(pc.kind), false);
      PresentNext(st'.c, pc.p.n, pc.p.cr, pc.kind);
    }
  }

  lemma PresentIsAll(c: Cluster, n: CrName, cr: Cr)
    requires Present(c, n, cr, -1, false) && !ClaimMissing(c, n, cr.spec)
    ensures AllThere(c, n, cr.spec)
  {
    ClaimIsNamed(c, n, cr.spec);
    forall kind | Managed(cr.spec, kind) ensures LookupKey(n, cr.spec, kind) in c.objs {
      LookupKind(n, cr.spec, kind);
      RequiredMeaning(n, cr, LookupKey(n, cr.spec, kind));
    }
  }

  lemma ManagerTrack(c: Cluster, n: CrName, looked: bool, st: Store, pc: Pc, fault: Fault)
    requires (pc.Reading? || pc.Creating?) && Sync(System(st, pc), n) && SnapTrack(c, n, looked, st, pc)
    ensures var (st', pc') := Tick(st, pc, fault);
            && !pc'.Fetching? && !pc'.LookingUpCrd?
            && (HasSnap(pc') ==> SnapTrack(c, n, looked, st', pc'))
            && (pc'.Finished? && pc'.result.Ok? ==>
              WorkDone(c, n, st'.c, looked) && (pc'.result.requeue <==> Requeues(c, n)))
  {
    hide Tick, Present, ClaimMissing, AllThere, SccSync, EndSync, SccDone;
    var (st', pc') := Tick(st, pc, fault);
    ManagerPresent(st, pc, fault);
    OptionsValid(c.crs[n].spec);
    SameScc(st.c, st'.c, n.ns);
    RankStep(pc.kind, pc.kind);
    if pc.kind == StorageClass && Present(st'.c, n, pc.p.cr, -1, false) && !ClaimMissing(st'.c, n, pc.p.cr.spec) {
      PresentIsAll(st'.c, n, pc.p.cr);
    }
  }

  lemma SameScc(c: Cluster, c': Cluster, ns: string)
    requires c.scc == c'.scc && c.crd == c'.crd
    ensures SccDone(c, ns) <==> SccDone(c', ns)
  {
  }

  lemma AddingTrack(c: Cluster, n: CrName, looked: bool, st: Store, pc: Pc, fault: Fault)
    requires pc.AddingFinalizer? && Sync(System(st, pc), n) && SnapTrack(c, n, looked, st, pc)
    ensures var (st', pc') := Tick(st, pc, fault);
            && pc'.Finished?
            && (pc'.result.Ok? ==> WorkDone(c, n, st'.c, looked) && (pc'.result.requeue <==> Requeues(c, n)))
  {
    hide Present, ClaimMissing, AllThere, SccSync, SccDone;
    var (st', pc') := Tick(st, pc, fault);
    OptionsValid(c.crs[n].spec);
    SetCrStored(st, n, pc.p.cr.(finalizers := WithFinalizer(pc.p.cr.finalizers)));
    SameScc(st.c, st'.c, n.ns);
    assert AllThere(st.c, n, pc.p.cr.spec) by {
      PresentIsAll(st.c, n, pc.p.cr);
    }
    SameThere(st.c, st'.c, n, pc.p.cr.spec);
  }

  lemma SameThere(c: Cluster, c': Cluster, n: CrName, spec: Spec)
    requires AllThere(c, n, spec) && c'.objs == c.objs
    ensures AllThere(c', n, spec)
  {
  }

  lemma CleanupTrack(c: Cluster, n: CrName, looked: bool, st: Store, pc: Pc, fault: Fault)
    requires InCleanup(pc) && !pc.RemovingFinalizer? && Sync(System(st, pc), n) && SnapTrack(c, n, looked, st, pc)
    ensures var (st', pc') := Tick(st, pc, fault);
            if HasSnap(pc') then SnapTrack(c, n, looked, st', pc') && !pc'.LookingUpCrd? else pc' == Finished(Err)
  {
    hide Present, SccSync, Matched;
  }

  lemma RemovalTrack(c: Cluster, n: CrName, looked: bool, st: Store, pc: Pc, fault: Fault)
    requires pc.RemovingFinalizer? && Sync(System(st, pc), n) && SnapTrack(c, n, looked, st, pc)
    ensures var (st', pc') := Tick(st, pc, fault);
            && pc'.Finished?
            && (pc'.result.Ok? ==> WorkDone(c, n, st'.c, looked) && (pc'.result.requeue <==> Requeues(c, n)))
  {
    hide Present, SccSync, Matched;
    OptionsValid(c.crs[n].spec);
    WithoutRemoves(pc.p.cr.finalizers, FINALIZER);
  }

  lemma TrackStep(c: Cluster, n: CrName, looked: bool, a: Config)
    requires OnTrack(c, n, looked, a) && !a.pc.Finished?
    ensures OnTrack(c, n, looked, Ticked(a))
  {
    hide Tick, SccSync, ObjSync, EndSync, SnapTrack, WorkDone, Requeues;
    SyncStep(System(a.st, a.pc), n, First(a.faults));
    if a.pc.Fetching? {
      FetchTrack(c, n, looked, a);
    } else if a.pc.WritingStatus? {
      StatusTrack(c, n, looked, a);
    } else if a.pc.Reading? || a.pc.Creating? {
      ManagerTrack(c, n, looked, a.st, a.pc, First(a.faults));
    } else if a.pc.AddingFinalizer? {
      AddingTrack(c, n, looked, a.st, a.pc, First(a.faults));
    } else if a.pc.RemovingFinalizer? {
      RemovalTrack(c, n, looked, a.st, a.pc, First(a.faults));
    } else if InCleanup(a.pc) {
      CleanupTrack(c, n, looked, a.st, a.pc, First(a.faults));
      NotFetching(a.st, a.pc, First(a.faults));
    } else {
      SccTrack(c, n, looked, a.st, a.pc, First(a.faults));
      NotFetching(a.st, a.pc, First(a.faults));
    }
  }

  lemma NotFetching(st: Store, pc: Pc, fault: Fault)
    requires !pc.Finished?
    ensures !Tick(st, pc, fault).1.Fetching?
  {
  }

  lemma {:induction false} TrackToEnd(c: Cluster, n: CrName, looked: bool, a: Config)
    requires OnTrack(c, n, looked, a)
    ensures OnTrack(c, n, looked, Exec(a))
    decreases Rank(a.pc)
  {
    hide OnTrack, Ticked;
    if !a.pc.Finished? {
      TrackStep(c, n, looked, a);
      TrackToEnd(c, n, looked, Ticked(a));
    }
  }

  // ---------------------------------------------------------------- the way to an error

  /** A valid resource whose named claim is missing. */
  predicate Stuck(c: Cluster, n: CrName) {
    n in c.crs && StorageOptions(c.crs[n].spec) <= 1 && NamedClaimMissing(c, n, c.crs[n].spec)
  }

  lemma StuckMeaning(c: Cluster, n: CrName)
    ensures Stuck(c, n) <==> n in c.crs && Valid(c.crs[n].spec) && ClaimMissing(c, n, c.crs[n].spec)
  {
    if n in c.crs {
      OptionsValid(c.crs[n].spec);
      ClaimIsNamed(c, n, c.crs[n].spec);
    }
  }

  lemma FaultEnds(a: Config)
    requires !a.pc.Finished? && !First(a.faults).Fine? && !Ignored(a.pc)
    ensures Ticked(a).pc == Finished(Err)
  {
    FailedCallEnds(a.pc);
  }

  /** Past the claim nobody is stuck any more. */
  lemma StuckPlaces(st: Store, pc: Pc, n: CrName)
    requires !pc.Finished? && Sync(System(st, pc), n) && Stuck(st.c, n)
    ensures pc.Fetching? || pc.LookingUpCrd? || pc.ReadingScc? || pc.CreatingScc? || pc.AppendingScc?
            || (pc.Reading? && pc.kind == Pvc)
  {
    hide Present, SccSync;
    StuckMeaning(st.c, n);
  }

  lemma StuckStep(st: Store, pc: Pc, n: CrName, fault: Fault)
    requires !pc.Finished? && Sync(System(st, pc), n) && Stuck(st.c, n) && (fault.Fine? || Ignored(pc))
    ensures var (st', pc') := Tick(st, pc, fault);
            pc' == Finished(Err) || (!pc'.Finished? && Stuck(st'.c, n))
  {
    hide Present, SccDone, Build, Matched;
    StuckPlaces(st, pc, n);
    StuckMeaning(st.c, n);
  }

  lemma IgnoredGoesOn(st: Store, pc: Pc, fault: Fault)
    requires Ignored(pc) && !fault.Fine?
    ensures !Tick(st, pc, fault).1.Finished? && Tick(st, pc, fault).0 == st
  {
  }

  lemma FreeStep(st: Store, pc: Pc, n: CrName, fault: Fault)
    requires !pc.Finished? && Sync(System(st, pc), n) && !Stuck(st.c, n)
    ensures !Stuck(Tick(st, pc, fault).0.c, n)
  {
    hide Tick, SccSync, ObjSync, EndSync;
    StuckMeaning(st.c, n);
    StuckMeaning(Tick(st, pc, fault).0.c, n);
    ClaimStays(st, pc, n, fault);
  }

  /** A claim that is there stays there, and nobody changes the spec. */
  lemma ClaimStays(st: Store, pc: Pc, n: CrName, fault: Fault)
    requires !pc.Finished? && Sync(System(st, pc), n)
    ensures var c' := Tick(st, pc, fault).0.c;
            n in c'.crs ==>
              && n in st.c.crs && c'.crs[n].spec == st.c.crs[n].spec
              && (ClaimMissing(c', n, c'.crs[n].spec) ==> ClaimMissing(st.c, n, c'.crs[n].spec))
  {
    hide Tick, SccSync, ObjSync, EndSync;
    SpecStays(st, pc, n, fault);
    if n in st.c.crs {
      var claim := LookupKey(n, st.c.crs[n].spec, Pvc);
      if claim in st.c.objs {
        ClaimsStay(st, pc, fault, claim);
      }
    }
  }

  lemma FineGoesOn(st: Store, pc: Pc, n: CrName)
    requires !pc.Finished? && Sync(System(st, pc), n) && !Stuck(st.c, n)
    ensures Tick(st, pc, Fine).1 != Finished(Err)
  {
    hide Build, LookupKey, Present;
    StuckMeaning(st.c, n);
    if pc.Creating? {
      BuiltWhereLookedUp(n, pc.p.cr, pc.kind);
    }
  }

  lemma {:induction false} ErrorIff(a: Config, n: CrName)
    requires !a.pc.Finished? && Sync(System(a.st, a.pc), n)
    ensures Exec(a).pc == Finished(Err) <==> Disturbed(a) || Stuck(a.st.c, n)
    decreases Rank(a.pc)
  {
    hide Tick, Stuck, Sync;
    var b, fault := Ticked(a), First(a.faults);
    SyncStep(System(a.st, a.pc), n, fault);
    if !fault.Fine? && !Ignored(a.pc) {
      FaultEnds(a);
    } else {
      if Stuck(a.st.c, n) {
        StuckStep(a.st, a.pc, n, fault);
      } else {
        FreeStep(a.st, a.pc, n, fault);
        if fault.Fine? {
          FineGoesOn(a.st, a.pc, n);
        } else {
          IgnoredGoesOn(a.st, a.pc, fault);
        }
      }
      if !b.pc.Finished? {
        ErrorIff(b, n);
      }
    }
  }

  // ---------------------------------------------------------------- the theorem

  /** What the result of a pass means, from any store and under any faults. It reports success only with its work
      done, asks to be called again exactly for live valid resources, and reports an error if and only if a call
      failed that it does not ignore or the claim that a valid spec names is missing. */
  lemma ResultMeaning(st: Store, n: CrName, faults: seq<Fault>)
    ensures var a := At(st, Fetching(n), faults);
            var r := Exec(a);
            && (r.pc == Finished(Err) <==> Disturbed(a) || Stuck(st.c, n))
            && (r.pc.result.Ok? ==>
              && WorkDone(st.c, n, r.st.c, First(Rest(faults)).Fine?)
              && (r.pc.result.requeue <==> Requeues(st.c, n)))
  {
    hide WorkDone, Stuck, Ticked;
    var a := At(st, Fetching(n), faults);
    TrackToEnd(st.c, n, First(Rest(faults)).Fine?, a);
    ErrorIff(a, n);
  }

  // ---------------------------------------------------------------- the order of the managers

  const ORDER := [
    Pvc, ServiceAccount, ClusterRole, ClusterRoleBinding, Role, RoleBinding, Deployment, Service, StorageClass]

  lemma {:induction false} SyncOverRuns(s: System, n: CrName, actions: seq<Action>)
    requires Sync(s, n) && Admitted(s, actions, (s, a) => Alone(n, s, a))
    ensures Sync(Run(s, actions), n)
    decreases |actions|
  {
    hide Tick, SccSync, ObjSync, EndSync;
    if actions != [] {
      if actions[0].Step? {
        SyncStep(s, n, actions[0].fault);
      }
      SyncOverRuns(Apply(s, actions[0]), n, actions[1..]);
    }
  }

  lemma OrderRanks(i: nat)
    requires i < |ORDER|
    ensures KindRank(ORDER[i]) == 8 - i
  {
  }

  /** Objects are created in the order of the managers: wherever a run of passes is cut, an object is created only
      when everything that comes before it exists. */
  lemma EarlierFirst(st: Store, last: Result, n: CrName, actions: seq<Action>, i: nat, j: nat)
    requires Admitted(System(st, Finished(last)), actions, (s, a) => Alone(n, s, a))
    requires var pc := Run(System(st, Finished(last)), actions).pc;
             i < j < |ORDER| && pc.Creating? && pc.kind == ORDER[j] && Managed(pc.p.cr.spec, ORDER[i])
    ensures var now := Run(System(st, Finished(last)), actions);
            LookupKey(n, now.pc.p.cr.spec, ORDER[i]) in now.st.c.objs
  {
    SyncOverRuns(System(st, Finished(last)), n, actions);
    var now := Run(System(st, Finished(last)), actions);
    OrderRanks(i);
    OrderRanks(j);
    LookupKind(n, now.pc.p.cr.spec, ORDER[i]);
    RequiredMeaning(n, now.pc.p.cr, LookupKey(n, now.pc.p.cr.spec, ORDER[i]));
  }
}
