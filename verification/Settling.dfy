/** Many resources: once each has been reconciled, in whatever order, nothing is left to do for any of them. */
module Settling {
  import opened Objects
  import opened Matching
  import opened Protocol
  import opened Convergence
  import opened Faults
  import opened Progress
  import opened Commutation

  /** A resource for which a pass can get to its end. */
  predicate Ready(c: Cluster, n: CrName) {
    Live(c, n) && !ClaimMissing(c, n, c.crs[n].spec)
  }

  predicate Served(c: Cluster, n: CrName) {
    Ready(c, n) && Outstanding(c, n, c.crs[n]) == 0
  }

  /** Fault-free passes for these resources one after the other. */
  function PassAll(st: Store, names: seq<CrName>): Store
    decreases |names|
  {
    if names == [] then st else PassAll(Pass(st, names[0]).0, names[1..])
  }

  // ---------------------------------------------------------------- one pass

  lemma MatchedGrows(users: seq<string>, more: seq<string>, ns: string)
    requires Matched(users, ns)
    ensures Matched(users + more, ns)
  {
    var i :| 0 <= i < |users| && MatchesUser(users[i], ns);
    assert (users + more)[i] == users[i];
  }

  lemma SccStaysDone(c: Cluster, ns: string, other: string)
    requires SccDone(c, ns)
    ensures SccDone(EnsuredScc(c, other), ns)
  {
    if c.crd {
      MatchedGrows(c.scc.value.users, [Account(other)], ns);
    }
  }

  lemma SccByParts(c: Cluster, d: Cluster, ns: string)
    requires c.scc == d.scc && c.crd == d.crd
    ensures SccDone(c, ns) <==> SccDone(d, ns)
  {
  }

  /** A pass for one resource takes nothing away from another one. */
  lemma ReadyStays(c: Cluster, n: CrName, m: CrName)
    requires Ready(c, n) && Ready(c, m)
    ensures Ready(FullPass(c, n).0, m)
    ensures Served(c, m) ==> Served(FullPass(c, n).0, m)
  {
    hide Required, Build, Wanted, FullPass;
    var c' := FullPass(c, n).0;
    LivePass(c, n);
    assert c'.crs[m].spec == c.crs[m].spec && c'.crs[m].uid == c.crs[m].uid;
    if Served(c, m) {
      SccStaysDone(c, m.ns, n.ns);
      SccByParts(c', EnsuredScc(c, n.ns).(objs := c'.objs), m.ns);
      RequiredSame(m, c.crs[m], c'.crs[m]);
      var required := Required(m, c.crs[m]).Keys;
      assert required - c'.objs.Keys <= required - c.objs.Keys;
      assert required - c.objs.Keys == {};
    }
  }

  lemma PassServes(st: Store, n: CrName)
    requires Ready(st.c, n)
    ensures Served(Pass(st, n).0.c, n)
  {
    PassIsFullPass(st, n);
    ReadyStays(st.c, n, n);
    SuccessLeavesNothing(st, n);
  }

  lemma PassKeeps(st: Store, n: CrName, m: CrName)
    requires Ready(st.c, n) && Ready(st.c, m)
    ensures Ready(Pass(st, n).0.c, m)
    ensures Served(st.c, m) ==> Served(Pass(st, n).0.c, m)
  {
    PassIsFullPass(st, n);
    ReadyStays(st.c, n, m);
  }

  /** A pass for `n` gets to the end of a cleanup. */
  predicate CleansUp(c: Cluster, n: CrName) {
    n in c.crs && Finalizes(c.crs[n]) && Valid(c.crs[n].spec) && !ClaimMissing(c, n, c.crs[n].spec)
  }

  /** A pass that does not clean up leaves every other resource and every object alone, and unregisters nobody. */
  lemma OnlyCleanupsTake(c: Cluster, n: CrName, m: CrName)
    requires n != m && m in c.crs && !CleansUp(c, n)
    ensures var c' := FullPass(c, n).0;
            && m in c'.crs && c'.crs[m] == c.crs[m] && c.objs.Keys <= c'.objs.Keys
            && (SccDone(c, m.ns) ==> SccDone(c', m.ns))
  {
    hide Required, Build, Matched;
    if SccDone(c, m.ns) {
      SccStaysDone(c, m.ns, n.ns);
    }
  }

  lemma ServedByParts(c: Cluster, c': Cluster, m: CrName)
    requires Served(c, m) && m in c'.crs && c'.crs[m] == c.crs[m] && c.objs.Keys <= c'.objs.Keys && SccDone(c', m.ns)
    ensures Served(c', m)
  {
    hide Required, Build, Matched;
    var required := Required(m, c.crs[m]).Keys;
    assert required - c'.objs.Keys <= required - c.objs.Keys;
    assert required - c.objs.Keys == {};
  }

  /** Exactly when a pass for one resource takes something from another one that has everything: when it gets to the
      end of a cleanup. Invalid, stuck, absent and live resources, and deletions without this finalizer, take
      nothing. */
  lemma ServedUnlessCleanup(c: Cluster, n: CrName, m: CrName)
    requires n != m && Served(c, m)
    ensures Served(FullPass(c, n).0, m) <==> !CleansUp(c, n)
  {
    hide Required, Build, FullPass, SccDone;
    if CleansUp(c, n) {
      FinalizedCluster(c, n, m);
      RolesOutstanding(FullPass(c, n).0, m, c.crs[m]);
    } else {
      OnlyCleanupsTake(c, n, m);
      assert SccDone(c, m.ns);
      ServedByParts(c, FullPass(c, n).0, m);
    }
  }

  // ---------------------------------------------------------------- many passes

  lemma {:induction false} ServedThroughout(st: Store, names: seq<CrName>, m: CrName)
    requires Served(st.c, m) && forall n :: n in names ==> Ready(st.c, n)
    ensures Served(PassAll(st, names).c, m)
    decreases |names|
  {
    hide Ready, Served, Pass;
    if names != [] {
      ServedReady(st.c, m);
      PassKeeps(st, names[0], m);
      forall n | n in names[1..] ensures Ready(Pass(st, names[0]).0.c, n) {
        PassKeeps(st, names[0], n);
      }
      ServedThroughout(Pass(st, names[0]).0, names[1..], m);
    }
  }

  lemma ServedReady(c: Cluster, m: CrName)
    requires Served(c, m)
    ensures Ready(c, m)
  {
  }

  /** Convergence for many: after one fault-free pass for each resource, in any order and with any repetitions,
      every one has all its objects, its user and its finalizer. */
  lemma {:induction false} EverybodyServed(st: Store, names: seq<CrName>)
    requires forall n :: n in names ==> Ready(st.c, n)
    ensures forall n :: n in names ==> Served(PassAll(st, names).c, n)
    decreases |names|
  {
    hide Ready, Served, Pass;
    if names != [] {
      var st' := Pass(st, names[0]).0;
      forall n | n in names[1..] ensures Ready(st'.c, n) {
        PassKeeps(st, names[0], n);
      }
      EverybodyServed(st', names[1..]);
      PassServes(st, names[0]);
      ServedThroughout(st', names[1..], names[0]);
      forall n | n in names ensures Served(PassAll(st, names).c, n) {
        if n != names[0] {
          assert n in names[1..];
        }
      }
    }
  }

  /** And then the cluster is at rest: any further passes for any of them write nothing at all. */
  lemma {:induction false} AtRest(st: Store, names: seq<CrName>)
    requires forall n :: n in names ==> Served(st.c, n)
    ensures PassAll(st, names) == st
    decreases |names|
  {
    hide Outstanding, Pass;
    if names != [] {
      assert names[0] in names;
      NothingToWrite(st, names[0]);
      AtRest(st, names[1..]);
    }
  }

  /** From any store in which they are ready, whatever failed before: one round serves all, the next writes
      nothing. */
  lemma OneRoundSettles(st: Store, names: seq<CrName>, later: seq<CrName>)
    requires forall n :: n in names ==> Ready(st.c, n)
    requires forall n :: n in later ==> n in names
    ensures forall n :: n in names ==> Served(PassAll(st, names).c, n)
    ensures PassAll(PassAll(st, names), later) == PassAll(st, names)
  {
    EverybodyServed(st, names);
    AtRest(PassAll(st, names), later);
  }
}
