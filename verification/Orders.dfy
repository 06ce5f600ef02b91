/** Passes for any number of independent resources, in any two orders. */
module Orders {
  import opened Objects
  import opened Matching
  import opened Protocol
  import opened Convergence
  import opened Progress
  import opened Commutation
  import opened Settling

  /** Each resource is live and listed once, and no two of them have namespaces of which one covers the other. */
  ghost predicate Apart(c: Cluster, names: seq<CrName>) {
    && (forall n :: n in names ==> n in c.crs && Live(c, n) && multiset(names)[n] == 1)
    && (forall n, m :: n in names && m in names && n != m ==> Independent(n.ns, m.ns))
  }

  lemma ApartRest(c: Cluster, names: seq<CrName>)
    requires Apart(c, names) && names != []
    ensures Apart(c, names[1..])
    ensures forall m :: m in names[1..] ==> m in c.crs && Live(c, m) && m != names[0] && Independent(names[0].ns, m.ns)
  {
    hide Live, Independent;
    assert names[0] in names;
    forall m | m in names[1..] ensures m in names && multiset(names[1..])[m] == 1 && m != names[0] {
      OnceInRest(names, m);
    }
  }

  lemma OnceInRest(names: seq<CrName>, m: CrName)
    requires names != [] && m in names[1..] && multiset(names)[m] == 1
    ensures m in names && multiset(names[1..])[m] == 1 && m != names[0]
  {
    assert names == [names[0]] + names[1..];
    assert m in multiset(names[1..]);
  }

  // ---------------------------------------------------------------- all passes in closed form

  /** Everything the resources ask for; what comes first in the list wins. */
  function AllWanted(c: Cluster, names: seq<CrName>): map<Key, Object>
    requires forall n :: n in names ==> n in c.crs
    decreases |names|
  {
    if names == [] then map[] else AllWanted(c, names[1..]) + Wanted(c, names[0], c.crs[names[0]])
  }

  /** The accounts that are appended. */
  function NewUser(users: seq<string>, ns: string): seq<string> {
    if Matched(users, ns) then [] else [Account(ns)]
  }

  function NewUsers(users: seq<string>, names: seq<CrName>): seq<string>
    decreases |names|
  {
    if names == [] then [] else NewUser(users, names[0].ns) + NewUsers(users, names[1..])
  }

  function WithFinalizers(c: Cluster, names: seq<CrName>): map<CrName, Cr> {
    map m | m in c.crs ::
      if m in names && !ClaimMissing(c, m, c.crs[m].spec)
      then c.crs[m].(finalizers := WithFinalizer(c.crs[m].finalizers)) else c.crs[m]
  }

  function PolicyOf(c: Cluster): Payload {
    if c.scc.None? then BuildScc("").policy else c.scc.value.policy
  }

  ghost predicate IsPassAll(c: Cluster, names: seq<CrName>, d: Cluster)
    requires forall n :: n in names ==> n in c.crs
  {
    && d.objs == AllWanted(c, names) + c.objs
    && d.crs == WithFinalizers(c, names)
    && d.crd == c.crd
    && (names == [] || !c.crd ==> d.scc == c.scc)
    && (names != [] && c.crd ==> d.scc == Some(Scc(Users(c) + NewUsers(Users(c), names), PolicyOf(c))))
  }

  /** What the first pass leaves as the later ones would have found it at the start. */
  ghost predicate Undisturbed(c: Cluster, c1: Cluster, names: seq<CrName>) {
    forall m :: m in names ==>
      && m in c.crs && m in c1.crs && c1.crs[m] == c.crs[m]
      && Wanted(c1, m, c.crs[m]) == Wanted(c, m, c.crs[m])
      && ClaimMissing(c1, m, c.crs[m].spec) == ClaimMissing(c, m, c.crs[m].spec)
      && (c.crd ==> (Matched(Users(c1), m.ns) <==> Matched(Users(c), m.ns)))
  }

  lemma FirstDisturbsNone(c: Cluster, names: seq<CrName>)
    requires Apart(c, names) && names != []
    ensures var c1 := FullPass(c, names[0]).0; Undisturbed(c, c1, names[1..]) && Apart(c1, names[1..])
  {
    hide Wanted, FullPass, Independent, EnsuredScc;
    var n, c1 := names[0], FullPass(c, names[0]).0;
    ApartRest(c, names);
    forall m | m in names[1..]
      ensures Live(c1, m) && c1.crs[m] == c.crs[m] && Wanted(c1, m, c.crs[m]) == Wanted(c, m, c.crs[m])
      ensures ClaimMissing(c1, m, c.crs[m].spec) == ClaimMissing(c, m, c.crs[m].spec)
      ensures c.crd ==> (Matched(Users(c1), m.ns) <==> Matched(Users(c), m.ns))
    {
      DifferentNamespaces(n.ns, m.ns);
      OtherUndisturbed(c, n, m);
      ClaimUndisturbed(c, n, m);
      if c.crd {
        LivePass(c, n);
        EnsuredSccUsers(c, n.ns);
        AppendIndependent(Users(c), n.ns, m.ns);
      }
    }
  }

  lemma {:induction false} WantedUndisturbed(c: Cluster, c1: Cluster, names: seq<CrName>)
    requires Undisturbed(c, c1, names)
    ensures AllWanted(c1, names) == AllWanted(c, names)
    decreases |names|
  {
    if names != [] {
      assert names[0] in names;
      WantedUndisturbed(c, c1, names[1..]);
    }
  }

  lemma {:induction false} UsersUndisturbed(users: seq<string>, users': seq<string>, names: seq<CrName>)
    requires forall m :: m in names ==> (Matched(users', m.ns) <==> Matched(users, m.ns))
    ensures NewUsers(users', names) == NewUsers(users, names)
    decreases |names|
  {
    hide Matched;
    if names != [] {
      assert names[0] in names;
      UsersUndisturbed(users, users', names[1..]);
    }
  }

  lemma ObjectsTogether(later: map<Key, Object>, first: map<Key, Object>, objs: map<Key, Object>)
    ensures later + (first + objs) == (later + first) + objs
  {
  }

  lemma FinalizersTogether(c: Cluster, c1: Cluster, names: seq<CrName>)
    requires names != [] && names[0] in c.crs && names[0] !in names[1..] && Undisturbed(c, c1, names[1..])
    requires c1.crs == if ClaimMissing(c, names[0], c.crs[names[0]].spec) then c.crs
                       else c.crs[names[0] := c.crs[names[0]].(finalizers := WithFinalizer(c.crs[names[0]].finalizers))]
    ensures WithFinalizers(c1, names[1..]) == WithFinalizers(c, names)
  {
    hide WithFinalizer, ClaimMissing;
    assert names == [names[0]] + names[1..];
    assert c1.crs.Keys == c.crs.Keys;
    forall m | m in c.crs ensures WithFinalizers(c1, names[1..])[m] == WithFinalizers(c, names)[m] {
    }
  }

  lemma SccOfFirst(c: Cluster, ns: string)
    requires c.crd
    ensures EnsuredScc(c, ns).scc == Some(Scc(Users(c) + NewUser(Users(c), ns), PolicyOf(c)))
  {
    EnsuredSccUsers(c, ns);
    assert BuildScc(ns).policy == BuildScc("").policy;
    hide Account, EnsuredScc, Matched, BuildScc;
    assert Users(c) + [] == Users(c);
  }

  lemma UsersTogether(users: seq<string>, names: seq<CrName>)
    requires names != []
    ensures users + NewUsers(users, names) == (users + NewUser(users, names[0].ns)) + NewUsers(users, names[1..])
    ensures names[1..] == [] ==> users + NewUsers(users, names) == users + NewUser(users, names[0].ns)
  {
    hide NewUser;
    var added, later := NewUser(users, names[0].ns), NewUsers(users, names[1..]);
    assert users + (added + later) == (users + added) + later;
  }

  lemma SccTogether(c: Cluster, c1: Cluster, names: seq<CrName>)
    requires names != [] && c1.scc == Some(Scc(Users(c) + NewUser(Users(c), names[0].ns), PolicyOf(c)))
    requires forall m :: m in names[1..] ==> (Matched(Users(c1), m.ns) <==> Matched(Users(c), m.ns))
    ensures PolicyOf(c1) == PolicyOf(c)
    ensures Users(c1) + NewUsers(Users(c1), names[1..]) == Users(c) + NewUsers(Users(c), names)
    ensures names[1..] == [] ==> c1.scc == Some(Scc(Users(c) + NewUsers(Users(c), names), PolicyOf(c)))
  {
    hide Matched, NewUser, NewUsers;
    UsersTogether(Users(c), names);
    UsersUndisturbed(Users(c), Users(c1), names[1..]);
  }

  lemma {:induction false} PassAllClosed(st: Store, names: seq<CrName>)
    requires Apart(st.c, names)
    ensures IsPassAll(st.c, names, PassAll(st, names).c)
    decreases |names|
  {
    hide Independent, Live, Wanted, FullPass, EnsuredScc, Undisturbed, Matched, WithFinalizers, Pass;
    hide Users, PolicyOf, NewUsers, ClaimMissing;
    var c := st.c;
    if names == [] {
      NoFinalizers(c);
      assert map[] + c.objs == c.objs;
    } else {
      var n, st1 := names[0], Pass(st, names[0]).0;
      assert n in names;
      PassIsFullPass(st, n);
      FirstDisturbsNone(c, names);
      ApartRest(c, names);
      LivePass(c, n);
      PassAllClosed(st1, names[1..]);
      UndisturbedStored(c, st1.c, names[1..]);
      WantedUndisturbed(c, st1.c, names[1..]);
      ObjectsTogether(AllWanted(c, names[1..]), Wanted(c, n, c.crs[n]), c.objs);
      FinalizersTogether(c, st1.c, names);
      if c.crd {
        UsersUnmatched(c, st1.c, names[1..]);
        SccOfFirst(c, n.ns);
        SccTogether(c, st1.c, names);
      } else {
        NoCrdNoScc(c, n.ns);
      }
    }
  }

  lemma UndisturbedStored(c: Cluster, c1: Cluster, names: seq<CrName>)
    requires Undisturbed(c, c1, names)
    ensures forall m :: m in names ==> m in c.crs && m in c1.crs
  {
  }

  lemma UsersUnmatched(c: Cluster, c1: Cluster, names: seq<CrName>)
    requires c.crd && Undisturbed(c, c1, names)
    ensures forall m :: m in names ==> (Matched(Users(c1), m.ns) <==> Matched(Users(c), m.ns))
  {
  }

  lemma NoFinalizers(c: Cluster)
    ensures WithFinalizers(c, []) == c.crs
  {
  }

  lemma NoCrdNoScc(c: Cluster, ns: string)
    requires !c.crd
    ensures EnsuredScc(c, ns) == c
  {
  }

  // ---------------------------------------------------------------- what the order changes

  /** Outside the binding, the first in the list does not matter: all who ask for a key ask for the same object. */
  lemma {:induction false} AllWantedMeaning(c: Cluster, names: seq<CrName>, k: Key)
    requires Apart(c, names)
    ensures k in AllWanted(c, names) <==> exists n :: n in names && k in Wanted(c, n, c.crs[n])
    ensures k != BINDING_KEY ==>
              forall n :: n in names && k in Wanted(c, n, c.crs[n]) ==>
                AllWanted(c, names)[k] == Wanted(c, n, c.crs[n])[k]
    decreases |names|
  {
    hide Wanted, Independent, Live;
    if names != [] {
      var n := names[0];
      ApartRest(c, names);
      AllWantedMeaning(c, names[1..], k);
      forall m | m in names[1..] && k != BINDING_KEY && k in Wanted(c, n, c.crs[n]) && k in Wanted(c, m, c.crs[m])
        ensures Wanted(c, n, c.crs[n])[k] == Wanted(c, m, c.crs[m])[k]
      {
        IndependentNames(n.ns, m.ns);
        WantedCompatible(c, n, c.crs[n], m, c.crs[m]);
      }
      assert names == [n] + names[1..];
    }
  }

  lemma IndependentNames(a: string, b: string)
    requires Independent(a, b)
    ensures a != b && a != "" && b != ""
  {
    DifferentNamespaces(a, b);
  }

  /** The first of the list whose managers get past the claim. */
  function FirstWithClaim(c: Cluster, names: seq<CrName>): (first: Option<CrName>)
    requires forall n :: n in names ==> n in c.crs
    ensures first.Some? ==> first.value in names
    decreases |names|
  {
    if names == [] then None
    else if !ClaimMissing(c, names[0], c.crs[names[0]].spec) then Some(names[0])
    else FirstWithClaim(c, names[1..])
  }

  lemma {:induction false} BindingOfFirst(c: Cluster, names: seq<CrName>)
    requires forall n :: n in names ==> n in c.crs
    ensures var first := FirstWithClaim(c, names);
            && (BINDING_KEY in AllWanted(c, names) <==> first.Some?)
            && (first.Some? ==>
              AllWanted(c, names)[BINDING_KEY] == Build(first.value, c.crs[first.value], ClusterRoleBinding).obj)
    decreases |names|
  {
    hide Build, Required;
    if names != [] {
      BindingOfFirst(c, names[1..]);
      if !ClaimMissing(c, names[0], c.crs[names[0]].spec) {
        BindingWanted(c, names[0]);
      }
    }
  }

  lemma {:induction false} UserMoved(users: seq<string>, names: seq<CrName>, i: nat)
    requires i < |names|
    ensures multiset(NewUsers(users, names)) ==
            multiset(NewUser(users, names[i].ns)) + multiset(NewUsers(users, names[..i] + names[i + 1..]))
    decreases i
  {
    hide NewUser;
    var rest := names[..i] + names[i + 1..];
    if i == 0 {
      assert rest == names[1..];
    } else {
      UserMoved(users, names[1..], i - 1);
      assert rest[0] == names[0] && rest[1..] == names[1..][..i - 1] + names[1..][i..];
    }
  }

  /** The appended accounts are the same for any order, each as often. */
  lemma {:induction false} UsersPermute(users: seq<string>, xs: seq<CrName>, ys: seq<CrName>)
    requires multiset(xs) == multiset(ys)
    ensures multiset(NewUsers(users, xs)) == multiset(NewUsers(users, ys))
    decreases |xs|
  {
    hide NewUsers;
    if xs == [] {
      assert |ys| == |multiset(ys)|;
    } else {
      var i := TakeOut(xs, ys);
      UsersPermute(users, xs[1..], ys[..i] + ys[i + 1..]);
      UserMoved(users, xs, 0);
      assert xs[..0] + xs[0 + 1..] == xs[1..];
      UserMoved(users, ys, i);
    }
  }

  lemma TakeOut(xs: seq<CrName>, ys: seq<CrName>) returns (i: nat)
    requires xs != [] && multiset(xs) == multiset(ys)
    ensures i < |ys| && ys[i] == xs[0] && multiset(xs[1..]) == multiset(ys[..i] + ys[i + 1..])
  {
    assert xs[0] in multiset(ys);
    i :| 0 <= i < |ys| && ys[i] == xs[0];
    WithoutOne(xs, 0);
    assert xs[..0] + xs[0 + 1..] == xs[1..];
    WithoutOne(ys, i);
  }

  lemma WithoutOne(xs: seq<CrName>, i: nat)
    requires i < |xs|
    ensures multiset(xs[..i] + xs[i + 1..]) == multiset(xs) - multiset{xs[i]}
  {
    var head, tail := xs[..i], xs[i + 1..];
    assert xs == head + ([xs[i]] + tail);
    assert multiset(xs) == multiset(head) + (multiset([xs[i]]) + multiset(tail));
  }

  lemma ApartPermutes(c: Cluster, xs: seq<CrName>, ys: seq<CrName>)
    requires Apart(c, xs) && multiset(xs) == multiset(ys)
    ensures Apart(c, ys) && (forall n :: n in xs <==> n in ys) && |xs| == |ys|
  {
    hide Independent, Live;
    assert |xs| == |multiset(xs)| == |multiset(ys)| == |ys|;
    forall n ensures n in xs <==> n in ys {
      assert n in multiset(xs) <==> n in multiset(ys);
    }
  }

  /** Two ends of a round agree but for the order of the users and for a binding that did not exist before. */
  ghost predicate SameButOrder(c: Cluster, d: Cluster, e: Cluster) {
    && d.crs == e.crs && SameScc(d, e) && d.objs.Keys == e.objs.Keys
    && (forall k :: k in d.objs && (k != BINDING_KEY || k in c.objs) ==> d.objs[k] == e.objs[k])
  }

  lemma ClosedAgree(c: Cluster, xs: seq<CrName>, ys: seq<CrName>, d: Cluster, e: Cluster)
    requires Apart(c, xs) && Apart(c, ys) && (forall n :: n in xs <==> n in ys) && multiset(xs) == multiset(ys)
    requires IsPassAll(c, xs, d) && IsPassAll(c, ys, e)
    ensures SameButOrder(c, d, e)
  {
    hide AllWanted, Wanted, Independent, NewUsers, ClaimMissing, WithFinalizer;
    assert WithFinalizers(c, xs) == WithFinalizers(c, ys);
    UsersPermute(Users(c), xs, ys);
    assert |xs| == |multiset(xs)| == |multiset(ys)| == |ys|;
    forall k: Key
      ensures k in AllWanted(c, xs) <==> k in AllWanted(c, ys)
      ensures k in AllWanted(c, xs) && k != BINDING_KEY ==> AllWanted(c, xs)[k] == AllWanted(c, ys)[k]
    {
      AllWantedMeaning(c, xs, k);
      AllWantedMeaning(c, ys, k);
    }
  }

  /** Any number of tenants commute: a round over independent resources ends the same in any two orders, up to the
      order of the users; a binding that was absent goes to the first whose claim is there. */
  lemma RoundsCommute(st: Store, xs: seq<CrName>, ys: seq<CrName>)
    requires Apart(st.c, xs) && multiset(xs) == multiset(ys)
    ensures SameButOrder(st.c, PassAll(st, xs).c, PassAll(st, ys).c)
    ensures BINDING_KEY !in st.c.objs ==>
              var objs, first := PassAll(st, xs).c.objs, FirstWithClaim(st.c, xs);
              if first.None? then BINDING_KEY !in objs
              else BINDING_KEY in objs
                   && objs[BINDING_KEY] == Build(first.value, st.c.crs[first.value], ClusterRoleBinding).obj
  {
    hide Build, Independent, AllWanted, FirstWithClaim, PassAll, WithFinalizers, NewUsers;
    ApartPermutes(st.c, xs, ys);
    PassAllClosed(st, xs);
    PassAllClosed(st, ys);
    ClosedAgree(st.c, xs, ys, PassAll(st, xs).c, PassAll(st, ys).c);
    BindingOfFirst(st.c, xs);
  }
}
