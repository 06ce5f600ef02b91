/** The API client and the resource managers, in the imperative form of the Go code. Every method takes the pass
    machine from the method's start to where the code goes on after it; the way of a pass being unique, that
    fixes the store and the calls made. */
module Managers {
  import opened Objects
  import opened Matching
  import opened Protocol
  import opened Convergence

  /** client.Client on one cluster. `faults` says how the calls to come go; calls beyond it are fault-free. */
  class Client {
    var st: Store
    var faults: seq<Fault>

    constructor (st: Store, faults: seq<Fault>)
      ensures this.st == st && this.faults == faults
    {
      this.st, this.faults := st, faults;
    }

    /** The machine at `pc` on this cluster. */
    ghost function Here(pc: Pc): Config
      reads this
    {
      At(st, pc, faults)
    }

    /** One API call; it is the one the machine makes at `pc`, where it got from `start`. */
    method Do(call: Call, ghost pc: Pc, ghost start: Config) returns (reply: Reply)
      requires !pc.Finished? && call == CallOf(pc) && Reaches(start, Here(pc))
      modifies this
      ensures (st, reply) == Perform(old(st), call, First(old(faults)))
      ensures faults == Rest(old(faults))
      ensures Reaches(start, Here(Next(pc, reply)))
    {
      var r := Perform(st, call, First(faults));
      st, reply := r.0, r.1;
      faults := Rest(faults);
      TickReaches(old(Here(pc)));
      ReachesTrans(start, old(Here(pc)), Here(Next(pc, reply)));
    }
  }

  // ---------------------------------------------------------------- SecurityContextConstraints

  method IsSccCrdAvailable(c: Client, ghost p: Snap) returns (available: bool)
    modifies c
    ensures Reaches(old(c.Here(LookingUpCrd(p))), c.Here(if available then ReadingScc(p) else AfterScc(p)))
  {
    ghost var start := c.Here(LookingUpCrd(p));
    ReachesSelf(start);
    var reply := c.Do(GetCrd, LookingUpCrd(p), start);
    available := reply.Success?;
  }

  /** The loop over the users with the substring test. */
  method UserExists(users: seq<string>, ns: string) returns (found: bool)
    ensures found <==> Matched(users, ns)
  {
    found := false;
    for i := 0 to |users|
      invariant !found
      invariant forall j :: 0 <= j < i ==> !MatchesUser(users[j], ns)
    {
      if MatchesUser(users[i], ns) {
        return true;
      }
    }
  }

  method EnsureScc(c: Client, p: Snap) returns (ok: bool)
    modifies c
    ensures Reaches(old(c.Here(LookingUpCrd(p))), c.Here(if ok then AfterScc(p) else Finished(Err)))
  {
    ghost var start := c.Here(LookingUpCrd(p));
    var available := IsSccCrdAvailable(c, p);
    if !available {
      return true;
    }
    var reply := c.Do(GetScc, ReadingScc(p), start);
    if !reply.GotScc? {
      if reply.Missing? {
        var created := c.Do(CreateScc(BuildScc(p.n.ns)), CreatingScc(p), start);
        return created.Success?;
      }
      return false;
    }
    var found := UserExists(reply.scc.users, p.n.ns);
    if !found {
      var updated := c.Do(PutScc(reply.rev, Appended(reply.scc, p.n.ns)), AppendingScc(p, reply.rev, reply.scc), start);
      return updated.Success?;
    }
    return true;
  }

  // ---------------------------------------------------------------- get or create

  /** The get-or-create that the managers of service accounts, the four RBAC objects, deployments, services
      and storage classes share. */
  method GetOrCreate(c: Client, p: Snap, kind: Kind) returns (ok: bool)
    requires kind != Pvc
    modifies c
    ensures Reaches(old(c.Here(Reading(p, kind))), c.Here(if ok then After(p, kind) else Finished(Err)))
  {
    ghost var start := c.Here(Reading(p, kind));
    ReachesSelf(start);
    var reply := c.Do(GetObj(LookupKey(p.n, p.cr.spec, kind)), Reading(p, kind), start);
    if reply.Success? {
      return true;
    }
    if reply.Missing? {
      var created := c.Do(CreateObj(Build(p.n, p.cr, kind)), Creating(p, kind), start);
      return created.Success?;
    }
    return false;
  }

  /** Nothing for a host path, a check for a claim the user named, a get-or-create otherwise. */
  method EnsurePvc(c: Client, p: Snap) returns (ok: bool)
    modifies c
    ensures Reaches(old(c.Here(AfterScc(p))), c.Here(if ok then Reading(p, ServiceAccount) else Finished(Err)))
  {
    ghost var start := c.Here(AfterScc(p));
    ReachesSelf(start);
    var spec := p.cr.spec;
    if spec.hostPathDir != "" {
      return true;
    }
    var pvcName := DEFAULT_PVC;
    if spec.pvc != "" {
      pvcName := spec.pvc;
    }
    var reply := c.Do(GetObj(Key(Pvc, p.n.ns, pvcName)), Reading(p, Pvc), start);
    if !reply.Success? {
      if reply.Missing? {
        if spec.pvc == "" {
          var created := c.Do(CreateObj(BuildPvc(p.n, p.cr)), Creating(p, Pvc), start);
          return created.Success?;
        } else {
          return false;
        }
      } else {
        return false;
      }
    }
    return true;
  }

  method EnsureRbac(c: Client, p: Snap) returns (ok: bool)
    modifies c
    ensures Reaches(old(c.Here(Reading(p, ClusterRole))), c.Here(if ok then Reading(p, Deployment) else Finished(Err)))
  {
    ghost var start := c.Here(Reading(p, ClusterRole));
    ok := GetOrCreate(c, p, ClusterRole);
    if !ok { return false; }
    ghost var mid := c.Here(Reading(p, ClusterRoleBinding));
    ok := GetOrCreate(c, p, ClusterRoleBinding);
    ReachesTrans(start, mid, c.Here(if ok then Reading(p, Role) else Finished(Err)));
    if !ok { return false; }
    mid := c.Here(Reading(p, Role));
    ok := GetOrCreate(c, p, Role);
    ReachesTrans(start, mid, c.Here(if ok then Reading(p, RoleBinding) else Finished(Err)));
    if !ok { return false; }
    mid := c.Here(Reading(p, RoleBinding));
    ok := GetOrCreate(c, p, RoleBinding);
    ReachesTrans(start, mid, c.Here(if ok then Reading(p, Deployment) else Finished(Err)));
  }

  // ---------------------------------------------------------------- the manager set

  datatype Manager =
    | SccManager | PvcManager | AccountManager | RbacManager | DeploymentManager | ServiceManager | StorageClassManager

  const MANAGERS :=
    [SccManager, PvcManager, AccountManager, RbacManager, DeploymentManager, ServiceManager, StorageClassManager]

  function StartOf(p: Snap, m: Manager): Pc {
    match m
    case SccManager => LookingUpCrd(p)
    case PvcManager => AfterScc(p)
    case AccountManager => Reading(p, ServiceAccount)
    case RbacManager => Reading(p, ClusterRole)
    case DeploymentManager => Reading(p, Deployment)
    case ServiceManager => Reading(p, Service)
    case StorageClassManager => Reading(p, StorageClass)
  }

  function StartAt(p: Snap, i: nat): Pc {
    if i < |MANAGERS| then StartOf(p, MANAGERS[i]) else AfterEnsure(p)
  }

  method EnsureResource(c: Client, m: Manager, p: Snap, ghost i: nat) returns (ok: bool)
    requires i < |MANAGERS| && MANAGERS[i] == m
    modifies c
    ensures Reaches(old(c.Here(StartAt(p, i))), c.Here(if ok then StartAt(p, i + 1) else Finished(Err)))
  {
    hide Build, Ticked;
    match m
    case SccManager => ok := EnsureScc(c, p);
    case PvcManager => ok := EnsurePvc(c, p);
    case AccountManager => ok := GetOrCreate(c, p, ServiceAccount);
    case RbacManager => ok := EnsureRbac(c, p);
    case DeploymentManager => ok := GetOrCreate(c, p, Deployment);
    case ServiceManager => ok := GetOrCreate(c, p, Service);
    case StorageClassManager => ok := GetOrCreate(c, p, StorageClass);
  }

  /** All managers in order, stopping at the first error. Without faults, success means that everything required
      and missing has been added and nothing else has changed. */
  method EnsureAllResources(c: Client, p: Snap) returns (ok: bool)
    modifies c
    ensures Reaches(old(c.Here(LookingUpCrd(p))), c.Here(if ok then AfterEnsure(p) else Finished(Err)))
    ensures ok && old(c.faults) == [] && !ClaimMissing(old(c.st.c), p.n, p.cr.spec) ==>
              c.st.c == Ensured(old(c.st.c), p.n, p.cr)
  {
    ghost var start := c.Here(LookingUpCrd(p));
    ReachesSelf(start);
    for i := 0 to |MANAGERS|
      invariant Reaches(start, c.Here(StartAt(p, i)))
    {
      ghost var mid := c.Here(StartAt(p, i));
      var done := EnsureResource(c, MANAGERS[i], p, i);
      ReachesTrans(start, mid, c.Here(if done then StartAt(p, i + 1) else Finished(Err)));
      if !done {
        return false;
      }
    }
    if start.faults == [] && !ClaimMissing(start.st.c, p.n, p.cr.spec) {
      ghost var st := ManagersRun(start.st, p);
      ReachedOnce(start, c.Here(AfterEnsure(p)), Calm(st, AfterEnsure(p)));
    }
    return true;
  }
}
