/** Passes for resources of different namespaces commute, up to the order of the SCC users and to whom an absent
    cluster role binding goes. */
module Commutation {
  import opened Objects
  import opened Matching
  import opened Protocol
  import opened Convergence
  import opened Faults
  import opened Progress

  // ---------------------------------------------------------------- the SCC

  predicate Independent(a: string, b: string) {
    IsNamespace(a) && IsNamespace(b) && !Covers(a, b) && !Covers(b, a)
  }

  lemma AppendIndependent(users: seq<string>, a: string, b: string)
    requires Independent(a, b)
    ensures Matched(users + [Account(a)], b) <==> Matched(users, b)
  {
    MatchMeaning(a, b);
    var users' := users + [Account(a)];
    if Matched(users', b) {
      var i :| 0 <= i < |users'| && MatchesUser(users'[i], b);
      assert i < |users| && users[i] == users'[i];
    }
    if Matched(users, b) {
      var i :| 0 <= i < |users| && MatchesUser(users[i], b);
      assert users'[i] == users[i];
    }
  }

  function Users(c: Cluster): seq<string> {
    if c.scc.None? then [] else c.scc.value.users
  }

  /** The SCC step in one formula: the account is appended unless some user matches; an absent SCC has none. */
  lemma EnsuredSccUsers(c: Cluster, ns: string)
    requires c.crd
    ensures EnsuredScc(c, ns).scc.Some?
    ensures Users(EnsuredScc(c, ns)) == if Matched(Users(c), ns) then Users(c) else Users(c) + [Account(ns)]
    ensures EnsuredScc(c, ns).scc.value.policy == if c.scc.None? then BuildScc(ns).policy else c.scc.value.policy
  {
  }

  ghost predicate SameScc(a: Cluster, b: Cluster) {
    || a.scc == b.scc
    || (a.scc.Some? && b.scc.Some?
        && a.scc.value.policy == b.scc.value.policy
        && multiset(a.scc.value.users) == multiset(b.scc.value.users))
  }

  lemma SccCommutes(c: Cluster, a: string, b: string)
    requires Independent(a, b)
    ensures SameScc(EnsuredScc(EnsuredScc(c, a), b), EnsuredScc(EnsuredScc(c, b), a))
  {
    if c.crd {
      EnsuredSccUsers(c, a);
      EnsuredSccUsers(c, b);
      EnsuredSccUsers(EnsuredScc(c, a), b);
      EnsuredSccUsers(EnsuredScc(c, b), a);
      AppendIndependent(Users(c), a, b);
      AppendIndependent(Users(c), b, a);
    }
  }

  // ---------------------------------------------------------------- the objects

  /** What the managers of a resource would add to an empty cluster of this kind. */
  function Wanted(c: Cluster, n: CrName, cr: Cr): map<Key, Object> {
    if ClaimMissing(c, n, cr.spec) then map[] else Required(n, cr)
  }

  /** Two resources of different namespaces ask for different objects under one key only for the binding. */
  lemma SharedRequirement(n: CrName, cr: Cr, m: CrName, mr: Cr, k: Key)
    requires n.ns != m.ns && n.ns != "" && m.ns != ""
    requires k in Required(n, cr) && k in Required(m, mr) && k != BINDING_KEY
    ensures Required(n, cr)[k] == Required(m, mr)[k]
  {
    RequiredMeaning(n, cr, k);
    RequiredMeaning(m, mr, k);
  }

  lemma MergeCommutes(a: map<Key, Object>, b: map<Key, Object>, objs: map<Key, Object>)
    requires forall k :: k in a && k in b && k != BINDING_KEY ==> a[k] == b[k]
    ensures var l, r := b + (a + objs), a + (b + objs);
            && l.Keys == r.Keys
            && (forall k :: k in l && k != BINDING_KEY ==> l[k] == r[k])
            && (BINDING_KEY in objs ==> l[BINDING_KEY] == r[BINDING_KEY] == objs[BINDING_KEY])
            && (BINDING_KEY in a && BINDING_KEY !in objs ==> l[BINDING_KEY] == a[BINDING_KEY])
            && (BINDING_KEY in b && BINDING_KEY !in objs ==> r[BINDING_KEY] == b[BINDING_KEY])
  {
  }

  /** What a pass for a live resource does to each part of the cluster. */
  lemma LivePass(c: Cluster, n: CrName)
    requires Live(c, n)
    ensures var c', cr := FullPass(c, n).0, c.crs[n];
            && c'.objs == Wanted(c, n, cr) + c.objs
            && c'.scc == EnsuredScc(c, n.ns).scc && c'.crd == c.crd
            && c'.crs == (if ClaimMissing(c, n, cr.spec) then c.crs
                          else c.crs[n := cr.(finalizers := WithFinalizer(cr.finalizers))])
  {
    assert map[] + c.objs == c.objs;
  }

  /** A pass in one namespace changes nothing that a pass in another one looks at, but the SCC and the objects. */
  lemma OtherUndisturbed(c: Cluster, n: CrName, m: CrName)
    requires Live(c, n) && Live(c, m) && n.ns != m.ns
    ensures var c' := FullPass(c, n).0;
            Live(c', m) && c'.crs[m] == c.crs[m] && Wanted(c', m, c.crs[m]) == Wanted(c, m, c.crs[m])
  {
    LivePass(c, n);
    RequiredMeaning(n, c.crs[n], LookupKey(m, c.crs[m].spec, Pvc));
  }

  lemma SccOnly(c: Cluster, d: Cluster, ns: string)
    requires c.scc == d.scc && c.crd == d.crd
    ensures EnsuredScc(c, ns).scc == EnsuredScc(d, ns).scc
  {
  }

  lemma DifferentNamespaces(a: string, b: string)
    requires Independent(a, b)
    ensures a != b
  {
    assert HasSuffix(a, a);
  }

  /** Agreement of what the order "first `n`" leaves with what the other order leaves, from `c`. */
  ghost predicate AgreeUpToOrder(c: Cluster, n: CrName, first: Cluster, second: Cluster)
    requires n in c.crs
  {
    && first.crs == second.crs && SameScc(first, second)
    && first.objs.Keys == second.objs.Keys
    && (forall k :: k in first.objs && k != BINDING_KEY ==> first.objs[k] == second.objs[k])
    && (BINDING_KEY in c.objs ==>
      BINDING_KEY in first.objs && first.objs[BINDING_KEY] == second.objs[BINDING_KEY] == c.objs[BINDING_KEY])
    && (BINDING_KEY !in c.objs && !ClaimMissing(c, n, c.crs[n].spec) ==>
      BINDING_KEY in first.objs && first.objs[BINDING_KEY] == Build(n, c.crs[n], ClusterRoleBinding).obj)
  }

  function FinalizerAdded(c: Cluster, n: CrName, crs: map<CrName, Cr>): map<CrName, Cr>
    requires n in c.crs
  {
    if ClaimMissing(c, n, c.crs[n].spec) then crs
    else crs[n := c.crs[n].(finalizers := WithFinalizer(c.crs[n].finalizers))]
  }

  /** `nm` is what a pass for `n` and then one for `m` make of `c`, part by part. */
  predicate IsTwoPasses(c: Cluster, n: CrName, m: CrName, nm: Cluster)
    requires n in c.crs && m in c.crs
  {
    && nm.objs == Wanted(c, m, c.crs[m]) + (Wanted(c, n, c.crs[n]) + c.objs)
    && nm.scc == EnsuredScc(EnsuredScc(c, n.ns), m.ns).scc
    && nm.crs == FinalizerAdded(c, m, FinalizerAdded(c, n, c.crs))
  }

  lemma TwoPasses(c: Cluster, n: CrName, m: CrName)
    requires Live(c, n) && Live(c, m) && n.ns != m.ns
    ensures IsTwoPasses(c, n, m, FullPass(FullPass(c, n).0, m).0)
  {
    var cn := FullPass(c, n).0;
    OtherUndisturbed(c, n, m);
    ClaimUndisturbed(c, n, m);
    LivePass(c, n);
    LivePass(cn, m);
    SccOnly(cn, EnsuredScc(c, n.ns), m.ns);
  }

  lemma ClaimUndisturbed(c: Cluster, n: CrName, m: CrName)
    requires Live(c, n) && Live(c, m) && n.ns != m.ns
    ensures ClaimMissing(FullPass(c, n).0, m, c.crs[m].spec) == ClaimMissing(c, m, c.crs[m].spec)
  {
    LivePass(c, n);
    RequiredMeaning(n, c.crs[n], LookupKey(m, c.crs[m].spec, Pvc));
  }

  lemma BindingWanted(c: Cluster, n: CrName)
    requires n in c.crs && !ClaimMissing(c, n, c.crs[n].spec)
    ensures BINDING_KEY in Wanted(c, n, c.crs[n])
    ensures Wanted(c, n, c.crs[n])[BINDING_KEY] == Build(n, c.crs[n], ClusterRoleBinding).obj
  {
    RequiredMeaning(n, c.crs[n], BINDING_KEY);
  }

  lemma WantedCompatible(c: Cluster, n: CrName, cr: Cr, m: CrName, mr: Cr)
    requires n.ns != m.ns && n.ns != "" && m.ns != ""
    ensures var a, b := Wanted(c, n, cr), Wanted(c, m, mr);
            forall k :: k in a && k in b && k != BINDING_KEY ==> a[k] == b[k]
  {
    var a, b := Wanted(c, n, cr), Wanted(c, m, mr);
    forall k | k in a && k in b && k != BINDING_KEY ensures a[k] == b[k] {
      SharedRequirement(n, cr, m, mr, k);
    }
  }

  lemma OrdersAgree(c: Cluster, n: CrName, m: CrName, nm: Cluster, mn: Cluster)
    requires Live(c, n) && Live(c, m) && Independent(n.ns, m.ns)
    requires IsTwoPasses(c, n, m, nm) && IsTwoPasses(c, m, n, mn)
    ensures AgreeUpToOrder(c, n, nm, mn)
  {
    hide Required, EnsuredScc;
    DifferentNamespaces(n.ns, m.ns);
    var a, b := Wanted(c, n, c.crs[n]), Wanted(c, m, c.crs[m]);
    assert nm.crs == mn.crs;
    assert SameScc(nm, mn) by {
      SccCommutes(c, n.ns, m.ns);
    }
    assert forall k :: k in a && k in b && k != BINDING_KEY ==> a[k] == b[k] by {
      WantedCompatible(c, n, c.crs[n], m, c.crs[m]);
    }
    assert !ClaimMissing(c, n, c.crs[n].spec) ==>
        BINDING_KEY in a && a[BINDING_KEY] == Build(n, c.crs[n], ClusterRoleBinding).obj by {
      if !ClaimMissing(c, n, c.crs[n].spec) {
        BindingWanted(c, n);
      }
    }
    MergedAgree(a, b, c, n, nm, mn);
  }

  lemma MergedAgree(a: map<Key, Object>, b: map<Key, Object>, c: Cluster, n: CrName, nm: Cluster, mn: Cluster)
    requires n in c.crs && nm.objs == b + (a + c.objs) && mn.objs == a + (b + c.objs)
    requires forall k :: k in a && k in b && k != BINDING_KEY ==> a[k] == b[k]
    requires !ClaimMissing(c, n, c.crs[n].spec) ==>
               BINDING_KEY in a && a[BINDING_KEY] == Build(n, c.crs[n], ClusterRoleBinding).obj
    requires nm.crs == mn.crs && SameScc(nm, mn)
    ensures AgreeUpToOrder(c, n, nm, mn)
  {
    MergeCommutes(a, b, c.objs);
  }

  lemma PassesCommute(c: Cluster, n: CrName, m: CrName)
    requires Live(c, n) && Live(c, m) && Independent(n.ns, m.ns)
    ensures AgreeUpToOrder(c, n, FullPass(FullPass(c, n).0, m).0, FullPass(FullPass(c, m).0, n).0)
  {
    DifferentNamespaces(n.ns, m.ns);
    TwoPasses(c, n, m);
    TwoPasses(c, m, n);
    OrdersAgree(c, n, m, FullPass(FullPass(c, n).0, m).0, FullPass(FullPass(c, m).0, n).0);
  }

  /** The two orders agree on the resources, on every object except an absent-before cluster role binding, and on
      the SCC up to the order of its users. The binding goes to whoever comes first. */
  lemma TenantsCommute(st: Store, n: CrName, m: CrName)
    requires Live(st.c, n) && Live(st.c, m) && Independent(n.ns, m.ns)
    ensures AgreeUpToOrder(st.c, n, Pass(Pass(st, n).0, m).0.c, Pass(Pass(st, m).0, n).0.c)
  {
    PassIsFullPass(st, n);
    PassIsFullPass(st, m);
    PassIsFullPass(Pass(st, n).0, m);
    PassIsFullPass(Pass(st, m).0, n);
    PassesCommute(st.c, n, m);
  }

  lemma FinalizedCluster(c: Cluster, n: CrName, m: CrName)
    requires n in c.crs && c.crs[n].deleting && FINALIZER in c.crs[n].finalizers
    requires Valid(c.crs[n].spec) && !ClaimMissing(c, n, c.crs[n].spec) && Live(c, m)
    ensures var c' := FullPass(c, n).0;
            m in c'.crs && c'.crs[m] == c.crs[m] && ROLE_KEY !in c'.objs && BINDING_KEY !in c'.objs
  {
    hide Required, Build;
  }

  lemma RolesOutstanding(c: Cluster, m: CrName, cr: Cr)
    requires ROLE_KEY !in c.objs && BINDING_KEY !in c.objs
    ensures Outstanding(c, m, cr) >= 2
  {
    hide Required, SccDone;
    RoleRequired(m, cr);
    var missing := Required(m, cr).Keys - c.objs.Keys;
    assert ROLE_KEY != BINDING_KEY && |{ROLE_KEY, BINDING_KEY}| == 2;
    SubsetSize({ROLE_KEY, BINDING_KEY}, missing);
  }

  lemma BindingGoesTo(c: Cluster, m: CrName)
    requires Live(c, m) && !ClaimMissing(c, m, c.crs[m].spec) && BINDING_KEY !in c.objs
    ensures var c' := FullPass(c, m).0;
            BINDING_KEY in c'.objs && c'.objs[BINDING_KEY].body == BindingBody(AccountKey(m.ns), ROLE_KEY)
  {
    LivePass(c, m);
    BindingWanted(c, m);
  }

  /** What does not commute: completing the finalization of one resource takes both cluster roles away from every
      other one, and the binding then goes to the account of whoever is reconciled next. */
  lemma FinalizationStripsOthers(st: Store, n: CrName, m: CrName)
    requires n in st.c.crs && st.c.crs[n].deleting && FINALIZER in st.c.crs[n].finalizers
    requires Valid(st.c.crs[n].spec) && !ClaimMissing(st.c, n, st.c.crs[n].spec) && Live(st.c, m)
    ensures var st' := Pass(st, n).0;
            && Live(st'.c, m) && Outstanding(st'.c, m, st'.c.crs[m]) >= 2
            && (!ClaimMissing(st'.c, m, st'.c.crs[m].spec) ==>
              var c'' := Pass(st', m).0.c;
              BINDING_KEY in c''.objs && c''.objs[BINDING_KEY].body == BindingBody(AccountKey(m.ns), ROLE_KEY))
  {
    hide Build, Required, FullPass, Outstanding, Pass;
    var st' := Pass(st, n).0;
    PassIsFullPass(st, n);
    FinalizedCluster(st.c, n, m);
    RolesOutstanding(st'.c, m, st'.c.crs[m]);
    PassIsFullPass(st', m);
    if !ClaimMissing(st'.c, m, st'.c.crs[m].spec) {
      BindingGoesTo(st'.c, m);
    }
  }
}
