/** The user list of the SecurityContextConstraints over whole runs with any number of resources. */
module Tenants {
  import opened Objects
  import opened Matching
  import opened Protocol
  import opened Convergence
  import opened Faults

  // ---------------------------------------------------------------- the lists and the collisions

  ghost predicate DuplicateFree(users: seq<string>) {
    forall i, j :: 0 <= i < j < |users| ==> users[i] != users[j]
  }

  /** The list holds the accounts of exactly these namespaces. */
  ghost predicate Lists(users: seq<string>, namespaces: set<string>) {
    && (forall u :: u in users ==> exists ns :: ns in namespaces && u == Account(ns))
    && (forall ns :: ns in namespaces ==> Account(ns) in users)
  }

  ghost predicate AllNamespaces(namespaces: set<string>) {
    forall ns :: ns in namespaces ==> IsNamespace(ns)
  }

  /** Names of which none covers another. */
  ghost predicate CollisionFree(namespaces: set<string>) {
    && AllNamespaces(namespaces)
    && (forall a, b :: a in namespaces && b in namespaces && Covers(a, b) ==> a == b)
  }

  lemma AccountInjective(a: string, b: string)
    requires Account(a) == Account(b)
    ensures a == b
  {
    assert |Account(a)| == 38 + |a| && |Account(b)| == 38 + |b|;
    assert Account(a)[22..22 + |a|] == a && Account(b)[22..22 + |b|] == b;
  }

  /** On a list of namespace accounts the test succeeds iff one of the namespaces covers the one asked for. */
  lemma MatchedMeaning(users: seq<string>, namespaces: set<string>, ns: string)
    requires Lists(users, namespaces) && IsNamespace(ns) && forall m :: m in namespaces ==> IsNamespace(m)
    ensures Matched(users, ns) <==> exists m :: m in namespaces && Covers(m, ns)
  {
    if Matched(users, ns) {
      var i :| 0 <= i < |users| && MatchesUser(users[i], ns);
      assert users[i] in users;
      var m :| m in namespaces && users[i] == Account(m);
      MatchMeaning(m, ns);
    }
    if m :| m in namespaces && Covers(m, ns) {
      MatchMeaning(m, ns);
      var i :| 0 <= i < |users| && users[i] == Account(m);
      assert MatchesUser(users[i], ns);
    }
  }

  ghost predicate IsEntry(user: string, ns: string, account: string) {
    ColonFree(ns) && ColonFree(account) && user == Entry(ns, account)
  }

  /** A user without a colon or a service account. */
  ghost predicate IsUser(user: string) {
    ColonFree(user) || exists ns, account :: IsEntry(user, ns, account)
  }

  /** Exactly when the SCC step grants a namespace its access, for any list of any users: not when some user has the
      namespace right before a colon and the account name right behind it. */
  lemma GrantedUnlessMet(c: Cluster, ns: string)
    requires c.crd && c.scc.Some?
    ensures Account(ns) in EnsuredScc(c, ns).scc.value.users <==>
            || Account(ns) in c.scc.value.users
            || forall u, k: nat :: u in c.scc.value.users ==> !MeetsAt(u, ns, k)
  {
    hide MatchesUser, MeetsAt, Account;
    var users := c.scc.value.users;
    forall u | u in users ensures MatchesUser(u, ns) <==> exists k: nat :: MeetsAt(u, ns, k) {
      MatchesAtColon(u, ns);
    }
    if Matched(users, ns) {
      var i :| 0 <= i < |users| && MatchesUser(users[i], ns);
      assert users[i] in users;
    } else {
      assert EnsuredScc(c, ns).scc.value.users[|users|] == Account(ns);
      assert forall u :: u in users ==> !MatchesUser(u, ns);
    }
  }

  /** On a list of users without colons and of service accounts: not when some entry, of another namespace or of another
      account, covers it. */
  lemma GrantedUnlessCovered(c: Cluster, ns: string)
    requires c.crd && c.scc.Some? && ColonFree(ns) && forall u :: u in c.scc.value.users ==> IsUser(u)
    ensures Account(ns) in EnsuredScc(c, ns).scc.value.users <==>
            || Account(ns) in c.scc.value.users
            || forall u, m, account :: u in c.scc.value.users && IsEntry(u, m, account) ==> !CoversEntry(m, account, ns)
  {
    hide MatchesUser, CoversEntry, Account, ColonFree;
    var users := c.scc.value.users;
    forall u | u in users
      ensures MatchesUser(u, ns) <==> exists m, account :: IsEntry(u, m, account) && CoversEntry(m, account, ns)
    {
      UserMeaning(u, ns);
    }
    if Matched(users, ns) {
      var i :| 0 <= i < |users| && MatchesUser(users[i], ns);
      assert users[i] in users;
    } else {
      assert EnsuredScc(c, ns).scc.value.users[|users|] == Account(ns);
      assert forall u :: u in users ==> !MatchesUser(u, ns);
    }
  }

  lemma UserMeaning(u: string, ns: string)
    requires IsUser(u) && ColonFree(ns)
    ensures MatchesUser(u, ns) <==> exists m, account :: IsEntry(u, m, account) && CoversEntry(m, account, ns)
  {
    hide MatchesUser, CoversEntry;
    forall m, account | IsEntry(u, m, account) ensures MatchesUser(u, ns) <==> CoversEntry(m, account, ns) {
      EntryMeaning(m, account, ns);
    }
    if ColonFree(u) {
      ColonFreeNeverMatches(u, ns);
      forall m, account ensures !IsEntry(u, m, account) {
        assert Entry(m, account)[6] == ':';
      }
    }
  }

  /** On a list of the operator's own entries: not when another namespace covers it. */
  lemma GrantedAmongTenants(c: Cluster, namespaces: set<string>, ns: string)
    requires c.crd && c.scc.Some? && Lists(c.scc.value.users, namespaces)
    requires IsNamespace(ns) && forall m :: m in namespaces ==> IsNamespace(m)
    ensures Account(ns) in EnsuredScc(c, ns).scc.value.users <==>
            ns in namespaces || forall m :: m in namespaces ==> !Covers(m, ns)
  {
    var users := c.scc.value.users;
    MatchedMeaning(users, namespaces, ns);
    if Account(ns) in users {
      var m :| m in namespaces && Account(ns) == Account(m);
      AccountInjective(ns, m);
    }
    if !Matched(users, ns) {
      var users' := EnsuredScc(c, ns).scc.value.users;
      assert users'[|users|] == Account(ns);
    }
  }

  /** The family of namespaces that is left without access, and a member of it: with the account of a longer name on
      the list, the step never does anything for a suffix of that name. */
  lemma SuffixStarves(c: Cluster, prefix: string, ns: string)
    requires c.crd && c.scc.Some? && Account(prefix + ns) in c.scc.value.users
    ensures EnsuredScc(c, ns) == c
    ensures prefix != "" ==> Account(ns) != Account(prefix + ns)
    ensures IsNamespace("team-a") && IsNamespace("a") && MatchesUser(Account("team-a"), "a")
  {
    var users := c.scc.value.users;
    assert HasSuffix(prefix + ns, ns);
    CoversMatch(prefix + ns, ns);
    var i :| 0 <= i < |users| && users[i] == Account(prefix + ns);
    assert MatchesUser(users[i], ns);
    if Account(ns) == Account(prefix + ns) {
      AccountInjective(ns, prefix + ns);
      assert |ns| == |prefix + ns|;
    }
    assert HasSuffix("team-a", "a");
    CoversMatch("team-a", "a");
  }

  // ---------------------------------------------------------------- runs

  /** Passes for resources of these namespaces, with any faults except on the lookup of the resource definition;
      others may do anything but change the users of the SCC, make or delete it, or take its definition away. When
      they write the rest of it, an update that the operator has prepared is stale and fails. */
  predicate SharedScc(namespaces: set<string>, s: System, a: Action) {
    match a
    case Start(n) => n.ns in namespaces
    case Step(fault) => s.pc.LookingUpCrd? ==> fault.Fine?
    case Crash => true
    case Env(WriteScc(scc)) =>
      scc.Some? && s.st.c.scc.Some? && scc.value.users == s.st.c.scc.value.users
    case Env(SetCrd(_)) => false
    case Env(_) => true
  }

  /** The namespaces registered by one step. */
  function RegisteredBy(s: System, a: Action): set<string> {
    if a.Step? && (s.pc.CreatingScc? || s.pc.AppendingScc?) && Apply(s, a).st.c.scc != s.st.c.scc
    then {s.pc.p.n.ns} else {}
  }

  /** The namespaces whose SCC write took effect during the run. */
  function Registered(s: System, actions: seq<Action>): set<string>
    decreases |actions|
  {
    if actions == [] then {}
    else RegisteredBy(s, actions[0]) + Registered(Apply(s, actions[0]), actions[1..])
  }

  ghost predicate Registry(s: System, namespaces: set<string>, registered: set<string>) {
    && Versioned(s) && s.st.c.crd && registered <= namespaces
    && (s.st.c.scc.None? <==> registered == {})
    && (s.st.c.scc.Some? ==> DuplicateFree(s.st.c.scc.value.users) && Lists(s.st.c.scc.value.users, registered))
    && (s.pc.Fetching? ==> s.pc.n.ns in namespaces)
    && (HasSnap(s.pc) ==> s.pc.p.n.ns in namespaces)
    && (s.pc.AppendingScc? ==> !Matched(s.pc.seen.users, s.pc.p.n.ns))
    && (PastScc(s.pc) ==> exists m :: m in registered && Covers(m, s.pc.p.n.ns))
  }

  lemma AppendLists(scc: Scc, registered: set<string>, ns: string)
    requires DuplicateFree(scc.users) && Lists(scc.users, registered) && !Matched(scc.users, ns)
    ensures DuplicateFree(Appended(scc, ns).users) && Lists(Appended(scc, ns).users, registered + {ns})
  {
    OwnEntryMatches(ns);
    assert forall i :: 0 <= i < |scc.users| ==> scc.users[i] != Account(ns) by {
      assert forall i :: 0 <= i < |scc.users| ==> !MatchesUser(scc.users[i], ns);
    }
    assert Appended(scc, ns).users[|scc.users|] == Account(ns);
    forall m | m in registered ensures Account(m) in Appended(scc, ns).users {
      var i :| 0 <= i < |scc.users| && scc.users[i] == Account(m);
      assert Appended(scc, ns).users[i] == Account(m);
    }
  }

  predicate AtScc(pc: Pc) {
    pc.ReadingScc? || pc.CreatingScc? || pc.AppendingScc?
  }

  lemma ReadingSccKept(s: System, namespaces: set<string>, registered: set<string>, fault: Fault)
    requires AllNamespaces(namespaces) && Registry(s, namespaces, registered) && s.pc.ReadingScc?
    ensures Registry(Apply(s, Step(fault)), namespaces, registered)
  {
    VersionedKept(s, Step(fault));
    hide Versioned;
    hide Covers;
    if s.st.c.scc.Some? {
      MatchedMeaning(s.st.c.scc.value.users, registered, s.pc.p.n.ns);
    }
  }

  lemma CreatingSccKept(s: System, namespaces: set<string>, registered: set<string>, fault: Fault)
    requires Registry(s, namespaces, registered) && s.pc.CreatingScc?
    ensures Registry(Apply(s, Step(fault)), namespaces, registered + RegisteredBy(s, Step(fault)))
  {
    VersionedKept(s, Step(fault));
    hide Versioned;
    assert BuildScc(s.pc.p.n.ns).users == [Account(s.pc.p.n.ns)];
  }

  lemma AppendingSccKept(s: System, namespaces: set<string>, registered: set<string>, fault: Fault)
    requires Registry(s, namespaces, registered) && s.pc.AppendingScc?
    ensures Registry(Apply(s, Step(fault)), namespaces, registered + RegisteredBy(s, Step(fault)))
  {
    VersionedKept(s, Step(fault));
    hide Account;
    if s.st.c.scc == Some(s.pc.seen) {
      AppendLists(s.pc.seen, registered, s.pc.p.n.ns);
      assert Appended(s.pc.seen, s.pc.p.n.ns).users != s.pc.seen.users;
    }
  }

  lemma SccUntouched(st: Store, pc: Pc, fault: Fault)
    requires !pc.Finished? && !AtScc(pc)
    ensures var st' := Tick(st, pc, fault).0; st'.c.scc == st.c.scc && st'.c.crd == st.c.crd
  {
  }

  lemma NextNamespace(st: Store, pc: Pc, fault: Fault)
    requires !pc.Finished? && !AtScc(pc)
    ensures var pc' := Tick(st, pc, fault).1;
            && !pc'.Fetching?
            && (HasSnap(pc') ==> pc'.p.n.ns == if pc.Fetching? then pc.n.ns else pc.p.n.ns)
            && (PastScc(pc') ==> PastScc(pc) || (pc.LookingUpCrd? && !(fault.Fine? && st.c.crd)))
            && !pc'.AppendingScc?
  {
  }

  lemma OtherStepKept(s: System, namespaces: set<string>, registered: set<string>, fault: Fault)
    requires Registry(s, namespaces, registered) && SharedScc(namespaces, s, Step(fault)) && !AtScc(s.pc)
    ensures Registry(Apply(s, Step(fault)), namespaces, registered)
  {
    VersionedKept(s, Step(fault));
    if !s.pc.Finished? {
      SccUntouched(s.st, s.pc, fault);
      NextNamespace(s.st, s.pc, fault);
    }
  }

  lemma RegistryKept(s: System, namespaces: set<string>, registered: set<string>, a: Action)
    requires AllNamespaces(namespaces) && Registry(s, namespaces, registered) && SharedScc(namespaces, s, a)
    ensures Registry(Apply(s, a), namespaces, registered + RegisteredBy(s, a))
  {
    hide Build, Tick;
    if !a.Step? {
      VersionedKept(s, a);
    } else if s.pc.ReadingScc? {
      ReadingSccKept(s, namespaces, registered, a.fault);
      assert registered + {} == registered;
    } else if s.pc.CreatingScc? {
      CreatingSccKept(s, namespaces, registered, a.fault);
    } else if s.pc.AppendingScc? {
      AppendingSccKept(s, namespaces, registered, a.fault);
    } else {
      OtherStepKept(s, namespaces, registered, a.fault);
    }
  }

  lemma {:induction false} RegistryRun(
    s: System, namespaces: set<string>, registered: set<string>, actions: seq<Action>)
    requires AllNamespaces(namespaces) && Registry(s, namespaces, registered)
    requires Admitted(s, actions, (s, a) => SharedScc(namespaces, s, a))
    ensures Registry(Run(s, actions), namespaces, registered + Registered(s, actions))
    decreases |actions|
  {
    hide Build;
    if actions == [] {
      assert registered + {} == registered;
    } else {
      RegistryKept(s, namespaces, registered, actions[0]);
      var registered' := registered + RegisteredBy(s, actions[0]);
      RegistryRun(Apply(s, actions[0]), namespaces, registered', actions[1..]);
      assert registered' + Registered(Apply(s, actions[0]), actions[1..]) == registered + Registered(s, actions);
    }
  }

  /** Starting without an SCC, after any interleaving of passes for any number of resources, failed and
      conflicting updates included, the list holds exactly the accounts of the namespaces whose SCC write took
      effect, each once. A pass that gets beyond the SCC step has its own account on the list or one that covers it:
      without collisions its own, otherwise it may go on without access. */
  lemma UsersOverRuns(s: System, namespaces: set<string>, actions: seq<Action>)
    requires AllNamespaces(namespaces) && Bounded(s.st) && s.st.c.crd && s.st.c.scc.None? && s.pc.Finished?
    requires Admitted(s, actions, (s, a) => SharedScc(namespaces, s, a))
    ensures var s', registered := Run(s, actions), Registered(s, actions);
            && (s'.st.c.scc.None? <==> registered == {})
            && (s'.st.c.scc.Some? ==>
              DuplicateFree(s'.st.c.scc.value.users) && Lists(s'.st.c.scc.value.users, registered))
            && (PastScc(s'.pc) ==> s'.st.c.scc.Some? && exists m :: m in registered && Covers(m, s'.pc.p.n.ns))
            && (PastScc(s'.pc) && CollisionFree(namespaces) ==> Account(s'.pc.p.n.ns) in s'.st.c.scc.value.users)
  {
    hide Covers;
    RegistryRun(s, namespaces, {}, actions);
    assert {} + Registered(s, actions) == Registered(s, actions);
  }

  /** A conflict is possible: somebody changes the policy between the operator's read and its update, the update
      fails, and the list is as before. */
  lemma StaleUpdateFails(s: System, namespaces: set<string>, policy: Payload)
    requires Versioned(s) && s.pc.AppendingScc? && s.st.c.scc == Some(s.pc.seen) && policy != s.pc.seen.policy
    ensures var edit := Env(WriteScc(Some(s.pc.seen.(policy := policy))));
            && SharedScc(namespaces, s, edit)
            && Apply(Apply(s, edit), Step(Fine)).pc == Finished(Err)
            && Apply(Apply(s, edit), Step(Fine)).st.c.scc == Some(s.pc.seen.(policy := policy))
  {
    hide Matched, Build;
  }
}
