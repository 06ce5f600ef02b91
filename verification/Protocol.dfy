/** The cluster store, the API calls the operator makes, and one reconcile pass as a machine that makes
    one call at a time. Calls may fail before or after their effect; between two calls the process may
    crash and anybody else may write. */
module Protocol {
  import opened Objects
  import opened Matching

  // ---------------------------------------------------------------- the store

  /** The content of the cluster: custom resources, the SCC, all other objects, and whether the SCC
      resource definition can be looked up. */
  datatype Cluster = Cluster(
    crs: map<CrName, Cr>,
    scc: Option<Scc>,
    objs: map<Key, Object>,
    crd: bool)

  /** The content with the resource versions of the objects that are updated in place. The clock counts
      the writes that changed something. */
  datatype Store = Store(c: Cluster, crRevs: map<CrName, nat>, sccRev: nat, clock: nat)

  function RevOf(st: Store, n: CrName): nat {
    if n in st.crRevs then st.crRevs[n] else 0
  }

  predicate Current(st: Store, n: CrName, rev: nat) {
    n in st.c.crs && RevOf(st, n) == rev
  }

  /** Stores a resource; one under deletion without finalizers disappears, an unchanged one is not written. */
  function SetCr(st: Store, n: CrName, cr: Cr): Store {
    if cr.deleting && cr.finalizers == [] then
      if n in st.c.crs then Store(st.c.(crs := st.c.crs - {n}), st.crRevs, st.sccRev, st.clock + 1) else st
    else if n in st.c.crs && st.c.crs[n] == cr then
      st
    else
      Store(st.c.(crs := st.c.crs[n := cr]), st.crRevs[n := st.clock + 1], st.sccRev, st.clock + 1)
  }

  function SetScc(st: Store, scc: Option<Scc>): Store {
    if st.c.scc == scc then st
    else Store(st.c.(scc := scc), st.crRevs, st.clock + 1, st.clock + 1)
  }

  function SetObj(st: Store, k: Key, o: Object): Store {
    if k in st.c.objs && st.c.objs[k] == o then st
    else Store(st.c.(objs := st.c.objs[k := o]), st.crRevs, st.sccRev, st.clock + 1)
  }

  function DropObj(st: Store, k: Key): Store {
    if k in st.c.objs then Store(st.c.(objs := st.c.objs - {k}), st.crRevs, st.sccRev, st.clock + 1) else st
  }

  // ---------------------------------------------------------------- API calls

  datatype Call =
    | GetCr(n: CrName)
    | PutStatus(n: CrName, rev: nat, status: Status)
    | PutCr(n: CrName, rev: nat, cr: Cr)
    | GetCrd
    | GetScc
    | CreateScc(scc: Scc)
    | PutScc(rev: nat, scc: Scc)
    | GetObj(k: Key)
    | CreateObj(m: Manifest)
    | DeleteObj(k: Key)

  datatype Reply =
    | GotCr(rev: nat, cr: Cr)
    | GotScc(rev: nat, scc: Scc)
    | Success
    | Missing
    | Failed

  /** A fault-free call. */
  function Effect(st: Store, call: Call): (Store, Reply) {
    match call
    case GetCr(n) =>
      (st, if n in st.c.crs then GotCr(RevOf(st, n), st.c.crs[n]) else Missing)
    case PutStatus(n, rev, status) =>
      if Current(st, n, rev) then (SetCr(st, n, st.c.crs[n].(status := status)), Success) else (st, Failed)
    case PutCr(n, rev, cr) =>
      if Current(st, n, rev) then (SetCr(st, n, cr.(status := st.c.crs[n].status)), Success) else (st, Failed)
    case GetCrd =>
      (st, if st.c.crd then Success else Missing)
    case GetScc =>
      (st, if st.c.scc.Some? then GotScc(st.sccRev, st.c.scc.value) else Missing)
    case CreateScc(scc) =>
      if st.c.scc.None? then (SetScc(st, Some(scc)), Success) else (st, Failed)
    case PutScc(rev, scc) =>
      if st.c.scc.Some? && st.sccRev == rev then (SetScc(st, Some(scc)), Success) else (st, Failed)
    case GetObj(k) =>
      (st, if k in st.c.objs then Success else Missing)
    case CreateObj(m) =>
      if m.key in st.c.objs then (st, Failed) else (SetObj(st, m.key, m.obj), Success)
    case DeleteObj(k) =>
      if k in st.c.objs then (DropObj(st, k), Success) else (st, Missing)
  }

  datatype Fault = Fine | FailBefore | FailAfter

  function Perform(st: Store, call: Call, fault: Fault): (Store, Reply) {
    match fault
    case Fine => Effect(st, call)
    case FailBefore => (st, Failed)
    case FailAfter => (Effect(st, call).0, Failed)
  }

  // ---------------------------------------------------------------- the pass

  datatype Result = Ok(requeue: bool) | Err

  /** The copy of the resource a pass works on, with the version at which it was read. */
  datatype Snap = Snap(n: CrName, rev: nat, cr: Cr)

  /** What the pass does next. */
  datatype Pc =
    | Fetching(n: CrName)
    | WritingStatus(p: Snap)
    | LookingUpCrd(p: Snap)
    | ReadingScc(p: Snap)
    | CreatingScc(p: Snap)
    | AppendingScc(p: Snap, rev: nat, seen: Scc)
    | Reading(p: Snap, kind: Kind)
    | Creating(p: Snap, kind: Kind)
    | AddingFinalizer(p: Snap)
    | ReadingRole(p: Snap)
    | DeletingRole(p: Snap)
    | ReadingBinding(p: Snap)
    | DeletingBinding(p: Snap)
    | RemovingFinalizer(p: Snap)
    | Finished(result: Result)

  predicate HasSnap(pc: Pc) {
    !pc.Fetching? && !pc.Finished?
  }

  function Appended(scc: Scc, ns: string): Scc {
    scc.(users := scc.users + [Account(ns)])
  }

  function CallOf(pc: Pc): Call
    requires !pc.Finished?
  {
    match pc
    case Fetching(n) => GetCr(n)
    case WritingStatus(p) => PutStatus(p.n, p.rev, InvalidStatus(p.cr.spec))
    case LookingUpCrd(p) => GetCrd
    case ReadingScc(p) => GetScc
    case CreatingScc(p) => CreateScc(BuildScc(p.n.ns))
    case AppendingScc(p, rev, seen) => PutScc(rev, Appended(seen, p.n.ns))
    case Reading(p, kind) => GetObj(LookupKey(p.n, p.cr.spec, kind))
    case Creating(p, kind) => CreateObj(Build(p.n, p.cr, kind))
    case AddingFinalizer(p) => PutCr(p.n, p.rev, p.cr.(finalizers := WithFinalizer(p.cr.finalizers)))
    case ReadingRole(p) => GetObj(ROLE_KEY)
    case DeletingRole(p) => DeleteObj(ROLE_KEY)
    case ReadingBinding(p) => GetObj(BINDING_KEY)
    case DeletingBinding(p) => DeleteObj(BINDING_KEY)
    case RemovingFinalizer(p) => PutCr(p.n, p.rev, p.cr.(finalizers := Without(p.cr.finalizers, FINALIZER)))
  }

  /** The PVC manager reads no claim for a host path. */
  function AfterScc(p: Snap): Pc {
    if p.cr.spec.hostPathDir != "" then Reading(p, ServiceAccount) else Reading(p, Pvc)
  }

  function Following(kind: Kind): Kind
    requires kind != StorageClass
  {
    match kind
    case Pvc => ServiceAccount
    case ServiceAccount => ClusterRole
    case ClusterRole => ClusterRoleBinding
    case ClusterRoleBinding => Role
    case Role => RoleBinding
    case RoleBinding => Deployment
    case Deployment => Service
    case Service => StorageClass
  }

  function After(p: Snap, kind: Kind): Pc {
    if kind == StorageClass then AfterEnsure(p) else Reading(p, Following(kind))
  }

  /** The finalizer stage. */
  function AfterEnsure(p: Snap): Pc {
    if !p.cr.deleting then
      if FINALIZER in p.cr.finalizers then Finished(Ok(true)) else AddingFinalizer(p)
    else
      if FINALIZER in p.cr.finalizers then ReadingRole(p) else Finished(Ok(false))
  }

  function Next(pc: Pc, reply: Reply): Pc
    requires !pc.Finished?
  {
    match pc
    case Fetching(n) =>
      if reply.GotCr? then
        var p := Snap(n, reply.rev, reply.cr);
        if Valid(p.cr.spec) then LookingUpCrd(p) else WritingStatus(p)
      else if reply.Missing? then Finished(Ok(false))
      else Finished(Err)
    case WritingStatus(p) =>
      Finished(if reply.Success? then Ok(false) else Err)
    case LookingUpCrd(p) =>
      if reply.Success? then ReadingScc(p) else AfterScc(p)
    case ReadingScc(p) =>
      if reply.GotScc? then
        if Matched(reply.scc.users, p.n.ns) then AfterScc(p) else AppendingScc(p, reply.rev, reply.scc)
      else if reply.Missing? then CreatingScc(p)
      else Finished(Err)
    case CreatingScc(p) =>
      if reply.Success? then AfterScc(p) else Finished(Err)
    case AppendingScc(p, rev, seen) =>
      if reply.Success? then AfterScc(p) else Finished(Err)
    case Reading(p, kind) =>
      if reply.Success? then After(p, kind)
      else if reply.Missing? && Managed(p.cr.spec, kind) then Creating(p, kind)
      else Finished(Err)
    case Creating(p, kind) =>
      if reply.Success? then After(p, kind) else Finished(Err)
    case AddingFinalizer(p) =>
      Finished(if reply.Success? then Ok(true) else Err)
    case ReadingRole(p) =>
      if reply.Success? then DeletingRole(p) else ReadingBinding(p)
    case DeletingRole(p) =>
      if reply.Success? then ReadingBinding(p) else Finished(Err)
    case ReadingBinding(p) =>
      if reply.Success? then DeletingBinding(p) else RemovingFinalizer(p)
    case DeletingBinding(p) =>
      if reply.Success? then RemovingFinalizer(p) else Finished(Err)
    case RemovingFinalizer(p) =>
      Finished(if reply.Success? then Ok(false) else Err)
  }

  function Tick(st: Store, pc: Pc, fault: Fault): (Store, Pc)
    requires !pc.Finished?
  {
    var (st', reply) := Perform(st, CallOf(pc), fault);
    (st', Next(pc, reply))
  }

  // ---------------------------------------------------------------- a whole pass

  function KindRank(kind: Kind): nat {
    match kind
    case Pvc => 8
    case ServiceAccount => 7
    case ClusterRole => 6
    case ClusterRoleBinding => 5
    case Role => 4
    case RoleBinding => 3
    case Deployment => 2
    case Service => 1
    case StorageClass => 0
  }

  /** A bound on the number of calls left. */
  function Rank(pc: Pc): nat {
    match pc
    case Finished(_) => 0
    case RemovingFinalizer(_) => 1
    case DeletingBinding(_) => 2
    case ReadingBinding(_) => 3
    case DeletingRole(_) => 4
    case ReadingRole(_) => 5
    case AddingFinalizer(_) => 1
    case Creating(_, kind) => 6 + 2 * KindRank(kind)
    case Reading(_, kind) => 7 + 2 * KindRank(kind)
    case AppendingScc(_, _, _) => 24
    case CreatingScc(_) => 24
    case ReadingScc(_) => 25
    case LookingUpCrd(_) => 26
    case WritingStatus(_) => 1
    case Fetching(_) => 27
  }

  function First(faults: seq<Fault>): Fault {
    if faults == [] then Fine else faults[0]
  }

  function Rest(faults: seq<Fault>): seq<Fault> {
    if faults == [] then [] else faults[1..]
  }

  /** A pass in progress: the store, what comes next, and how the calls to come go (without a fault once `faults`
      is used up). */
  datatype Config = At(st: Store, pc: Pc, faults: seq<Fault>)

  lemma NextLowersRank(pc: Pc, reply: Reply)
    requires !pc.Finished?
    ensures Rank(Next(pc, reply)) < Rank(pc)
  {
  }

  function Ticked(a: Config): (b: Config)
    ensures !a.pc.Finished? ==> Rank(b.pc) < Rank(a.pc)
    ensures a.pc.Finished? ==> b == a
  {
    if a.pc.Finished? then a
    else
      var (st, pc) := Tick(a.st, a.pc, First(a.faults));
      NextLowersRank(a.pc, Perform(a.st, CallOf(a.pc), First(a.faults)).1);
      At(st, pc, Rest(a.faults))
  }

  /** The end of the pass. */
  function Exec(a: Config): (r: Config)
    ensures r.pc.Finished?
    decreases Rank(a.pc)
  {
    if a.pc.Finished? then a else Exec(Ticked(a))
  }

  /** A whole fault-free pass for one resource. */
  function Pass(st: Store, n: CrName): (Store, Pc) {
    var r := Exec(At(st, Fetching(n), []));
    (r.st, r.pc)
  }

  function TickedBy(a: Config, i: nat): Config
    decreases i
  {
    if i == 0 then a else TickedBy(Ticked(a), i - 1)
  }

  /** The pass gets from `a` to `b`. */
  ghost predicate Reaches(a: Config, b: Config) {
    exists i: nat :: TickedBy(a, i) == b
  }

  lemma ReachesSelf(a: Config)
    ensures Reaches(a, a)
  {
    assert TickedBy(a, 0) == a;
  }

  lemma {:induction false} TickedSum(a: Config, i: nat, j: nat)
    ensures TickedBy(TickedBy(a, i), j) == TickedBy(a, i + j)
    decreases i
  {
    hide Ticked;
    if i != 0 {
      TickedSum(Ticked(a), i - 1, j);
    }
  }

  lemma ReachesTrans(a: Config, b: Config, c: Config)
    requires Reaches(a, b) && Reaches(b, c)
    ensures Reaches(a, c)
  {
    var i: nat :| TickedBy(a, i) == b;
    var j: nat :| TickedBy(b, j) == c;
    TickedSum(a, i, j);
  }

  lemma TickReaches(a: Config)
    ensures Reaches(a, Ticked(a))
  {
    assert TickedBy(a, 1) == TickedBy(Ticked(a), 0);
  }

  /** The way of the pass is unique: wherever it gets to `pc`, it is in the same state. */
  lemma ReachedOnce(a: Config, b: Config, c: Config)
    requires Reaches(a, b) && Reaches(a, c) && (b.pc == c.pc || (b.pc.Finished? && c.pc.Finished?))
    ensures b == c
  {
    var i: nat :| TickedBy(a, i) == b;
    var j: nat :| TickedBy(a, j) == c;
    if i <= j {
      TickedSum(a, i, j - i);
      StepsLowerRank(b, j - i);
    } else {
      TickedSum(a, j, i - j);
      StepsLowerRank(c, i - j);
    }
  }

  lemma {:induction false} StepsLowerRank(a: Config, i: nat)
    ensures Rank(TickedBy(a, i).pc) <= Rank(a.pc)
    ensures TickedBy(a, i).pc == a.pc || (TickedBy(a, i).pc.Finished? && a.pc.Finished?) ==> TickedBy(a, i) == a
    decreases i
  {
    hide Ticked;
    if i != 0 {
      StepsLowerRank(Ticked(a), i - 1);
    }
  }

  /** The end is the same from wherever the pass gets to. */
  lemma ReachesExec(a: Config, b: Config)
    requires Reaches(a, b)
    ensures Exec(a) == Exec(b)
  {
    var i: nat :| TickedBy(a, i) == b;
    TickedExec(a, i);
  }

  lemma {:induction false} TickedExec(a: Config, i: nat)
    ensures Exec(TickedBy(a, i)) == Exec(a)
    decreases i
  {
    if i != 0 {
      TickedExec(Ticked(a), i - 1);
    }
  }

  // ---------------------------------------------------------------- runs

  /** Passes are serial: `pc` is the one in progress, or the last one's result. */
  datatype System = System(st: Store, pc: Pc)

  /** What anybody else may do to the cluster between two calls of the operator. */
  datatype Edit =
    | WriteCr(n: CrName, cr: Cr)
    | DeleteCr(n: CrName)
    | WriteScc(scc: Option<Scc>)
    | WriteObj(k: Key, o: Object)
    | RemoveObj(k: Key)
    | SetCrd(available: bool)

  datatype Action = Start(n: CrName) | Step(fault: Fault) | Crash | Env(edit: Edit)

  function ApplyEdit(st: Store, edit: Edit): Store {
    match edit
    case WriteCr(n, cr) => SetCr(st, n, cr)
    case DeleteCr(n) => if n in st.c.crs then SetCr(st, n, st.c.crs[n].(deleting := true)) else st
    case WriteScc(scc) => SetScc(st, scc)
    case WriteObj(k, o) => SetObj(st, k, o)
    case RemoveObj(k) => DropObj(st, k)
    case SetCrd(b) => st.(c := st.c.(crd := b))
  }

  function Apply(s: System, a: Action): System {
    match a
    case Start(n) => if s.pc.Finished? then System(s.st, Fetching(n)) else s
    case Step(fault) =>
      if s.pc.Finished? then s
      else
        var (st, pc) := Tick(s.st, s.pc, fault);
        System(st, pc)
    case Crash => System(s.st, Finished(Err))
    case Env(edit) => System(ApplyEdit(s.st, edit), s.pc)
  }

  function Run(s: System, actions: seq<Action>): System
    decreases |actions|
  {
    if actions == [] then s else Run(Apply(s, actions[0]), actions[1..])
  }

  /** Every action of the run is one that `ok` admits in the state in which it happens. */
  ghost predicate Admitted(s: System, actions: seq<Action>, ok: (System, Action) -> bool)
    decreases |actions|
  {
    actions == [] || (ok(s, actions[0]) && Admitted(Apply(s, actions[0]), actions[1..], ok))
  }

  ghost predicate Kept(inv: System -> bool, ok: (System, Action) -> bool) {
    forall s, a :: inv(s) && ok(s, a) ==> inv(Apply(s, a))
  }

  /** An invariant kept by every admitted action holds after every run. */
  lemma {:induction false} Induct(s: System, actions: seq<Action>, inv: System -> bool, ok: (System, Action) -> bool)
    requires Kept(inv, ok) && inv(s) && Admitted(s, actions, ok)
    ensures inv(Run(s, actions))
    decreases |actions|
  {
    if actions != [] {
      Induct(Apply(s, actions[0]), actions[1..], inv, ok);
    }
  }

  /** The machine steps that the rest of a pass consists of. */
  function Steps(a: Config): seq<Action>
    decreases Rank(a.pc)
  {
    if a.pc.Finished? then [] else [Step(First(a.faults))] + Steps(Ticked(a))
  }

  /** A pass is a run of the system: whatever holds of all runs holds of what the reconciler does. */
  lemma {:induction false} PassIsRun(a: Config)
    ensures Run(System(a.st, a.pc), Steps(a)) == System(Exec(a).st, Exec(a).pc)
    ensures |Steps(a)| <= Rank(a.pc)
    decreases Rank(a.pc)
  {
    if !a.pc.Finished? {
      PassIsRun(Ticked(a));
      assert Steps(a)[1..] == Steps(Ticked(a));
    }
  }

  // ---------------------------------------------------------------- versions

  /** No version is ahead of the clock. */
  predicate Bounded(st: Store) {
    && (forall n :: n in st.crRevs ==> st.crRevs[n] <= st.clock)
    && st.sccRev <= st.clock
  }

  /** A copy of the resource equals what is stored as long as its version is current. */
  predicate TrueCopy(st: Store, p: Snap) {
    && p.rev <= st.clock
    && (Current(st, p.n, p.rev) ==> st.c.crs[p.n] == p.cr)
  }

  predicate TrueScc(st: Store, rev: nat, seen: Scc) {
    && rev <= st.clock
    && (st.c.scc.Some? && st.sccRev == rev ==> st.c.scc.value == seen)
  }

  predicate Versioned(s: System) {
    && Bounded(s.st)
    && (HasSnap(s.pc) ==> TrueCopy(s.st, s.pc.p))
    && (s.pc.AppendingScc? ==> TrueScc(s.st, s.pc.rev, s.pc.seen))
  }

  /** What any write does to versions: whatever changed carries a version newer than the old clock. */
  predicate Newer(st: Store, st': Store) {
    && st.clock <= st'.clock
    && (forall n {:trigger RevOf(st', n)} {:trigger n in st'.c.crs} :: n in st'.c.crs ==>
      || (n in st.c.crs && st'.c.crs[n] == st.c.crs[n] && RevOf(st', n) == RevOf(st, n))
      || st.clock < RevOf(st', n))
    && (forall n :: n in st'.crRevs ==> st'.crRevs[n] <= st'.clock)
    && st'.sccRev <= st'.clock
    && ((st'.c.scc == st.c.scc && st'.sccRev == st.sccRev) || st.clock < st'.sccRev)
  }

  lemma SetCrNewer(st: Store, n: CrName, cr: Cr)
    requires Bounded(st)
    ensures Newer(st, SetCr(st, n, cr))
  {
  }

  lemma EffectNewer(st: Store, call: Call)
    requires Bounded(st)
    ensures Newer(st, Effect(st, call).0)
  {
    hide SetCr;
    if call.PutStatus? && Current(st, call.n, call.rev) {
      SetCrNewer(st, call.n, st.c.crs[call.n].(status := call.status));
    } else if call.PutCr? && Current(st, call.n, call.rev) {
      SetCrNewer(st, call.n, call.cr.(status := st.c.crs[call.n].status));
    }
  }

  lemma EditNewer(st: Store, edit: Edit)
    requires Bounded(st)
    ensures Newer(st, ApplyEdit(st, edit))
  {
    hide SetCr;
    match edit
    case WriteCr(n, cr) => SetCrNewer(st, n, cr);
    case DeleteCr(n) =>
      if n in st.c.crs { SetCrNewer(st, n, st.c.crs[n].(deleting := true)); }
    case _ =>
  }

  lemma NewerKeepsCopies(st: Store, st': Store, pc: Pc)
    requires Newer(st, st') && Versioned(System(st, pc))
    ensures Versioned(System(st', pc))
  {
  }

  /** The next place has the copies of the last one, or a new one that is current. */
  lemma NextCopies(st: Store, pc: Pc, reply: Reply)
    requires !pc.Finished? && Versioned(System(st, pc))
    requires reply == Failed || reply == Effect(st, CallOf(pc)).1
    requires Effect(st, CallOf(pc)).0 == st || !(pc.Fetching? || pc.ReadingScc?)
    ensures Versioned(System(st, Next(pc, reply)))
  {
    hide Build, LookupKey, Matched;
  }

  lemma ReadsKeep(st: Store, pc: Pc)
    requires pc.Fetching? || pc.ReadingScc?
    ensures Effect(st, CallOf(pc)).0 == st
  {
  }

  /** Copies stay true to what is stored while their version is current, whoever writes in between. */
  lemma VersionedKept(s: System, a: Action)
    requires Versioned(s)
    ensures Versioned(Apply(s, a))
  {
    hide Newer, Build, CallOf, Next, Effect, ApplyEdit;
    match a
    case Start(_) =>
    case Crash =>
    case Env(edit) =>
      EditNewer(s.st, edit);
      NewerKeepsCopies(s.st, ApplyEdit(s.st, edit), s.pc);
    case Step(fault) =>
      if !s.pc.Finished? {
        var (st', reply) := Perform(s.st, CallOf(s.pc), fault);
        if s.pc.Fetching? || s.pc.ReadingScc? {
          ReadsKeep(s.st, s.pc);
        }
        NextCopies(s.st, s.pc, reply);
        EffectNewer(s.st, CallOf(s.pc));
        if st' != s.st {
          NewerKeepsCopies(s.st, st', Next(s.pc, reply));
        }
      }
  }

  /** Only the three updates write resources. */
  predicate Updates(pc: Pc) {
    pc.WritingStatus? || pc.AddingFinalizer? || pc.RemovingFinalizer?
  }

  lemma OnlyUpdatesWrite(st: Store, pc: Pc, fault: Fault)
    requires !pc.Finished? && !Updates(pc)
    ensures var st' := Tick(st, pc, fault).0; st'.c.crs == st.c.crs && st'.crRevs == st.crRevs
  {
    hide Build, LookupKey;
  }

  // ---------------------------------------------------------------- what the pass knows of its copy

  predicate InCleanup(pc: Pc) {
    pc.ReadingRole? || pc.DeletingRole? || pc.ReadingBinding? || pc.DeletingBinding? || pc.RemovingFinalizer?
  }

  predicate RolesAbsent(c: Cluster) {
    ROLE_KEY !in c.objs && BINDING_KEY !in c.objs
  }

  predicate PastScc(pc: Pc) {
    pc.Reading? || pc.Creating? || pc.AddingFinalizer? || InCleanup(pc)
  }

  /** Only a valid spec gets past validation; finalizers are added to live resources and removed from deleted ones. */
  predicate Shaped(pc: Pc) {
    && (HasSnap(pc) ==> (Valid(pc.p.cr.spec) <==> !pc.WritingStatus?))
    && (pc.AddingFinalizer? ==> !pc.p.cr.deleting && FINALIZER !in pc.p.cr.finalizers)
    && (InCleanup(pc) ==> pc.p.cr.deleting && FINALIZER in pc.p.cr.finalizers)
    && (pc.Reading? && pc.kind == Pvc ==> pc.p.cr.spec.hostPathDir == "")
    && (pc.Creating? ==> Managed(pc.p.cr.spec, pc.kind))
    && (pc.AppendingScc? ==> !Matched(pc.seen.users, pc.p.n.ns))
  }

  lemma ShapedNext(pc: Pc, reply: Reply)
    requires !pc.Finished? && Shaped(pc)
    ensures Shaped(Next(pc, reply))
  {
  }

  lemma ShapedKept(s: System, a: Action)
    requires Shaped(s.pc)
    ensures Shaped(Apply(s, a).pc)
  {
    if a.Step? && !s.pc.Finished? {
      ShapedNext(s.pc, Perform(s.st, CallOf(s.pc), a.fault).1);
    }
  }
}
