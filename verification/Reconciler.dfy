/** The reconciler, in the imperative form of the Go code. */
module Reconciler {
  import opened Objects
  import opened Protocol
  import opened Convergence
  import opened Managers
  import opened Results

  method ContainsString(slice: seq<string>, s: string) returns (found: bool)
    ensures found <==> s in slice
  {
    for i := 0 to |slice|
      invariant s !in slice[..i]
    {
      if slice[i] == s {
        return true;
      }
    }
    return false;
  }

  method RemoveString(slice: seq<string>, s: string) returns (result: seq<string>)
    ensures result == Without(slice, s)
  {
    result := [];
    for i := 0 to |slice|
      invariant result == Without(slice[..i], s)
    {
      assert slice[..i + 1][..i] == slice[..i];
      if slice[i] == s {
        continue;
      }
      result := result + [slice[i]];
    }
    assert slice[..|slice|] == slice;
  }

  /** A Get and, if it finds the object, a Delete; a failing Get counts as absent. */
  method DeleteFound(c: Client, k: Key, ghost reading: Pc, ghost deleting: Pc, ghost next: Pc) returns (ok: bool)
    requires !reading.Finished? && !deleting.Finished?
    requires CallOf(reading) == GetObj(k) && CallOf(deleting) == DeleteObj(k)
    requires forall reply :: Next(reading, reply) == if reply.Success? then deleting else next
    requires forall reply :: Next(deleting, reply) == if reply.Success? then next else Finished(Err)
    modifies c
    ensures Reaches(old(c.Here(reading)), c.Here(if ok then next else Finished(Err)))
  {
    ghost var start := c.Here(reading);
    ReachesSelf(start);
    var reply := c.Do(GetObj(k), reading, start);
    if reply.Success? {
      reply := c.Do(DeleteObj(k), deleting, start);
      if !reply.Success? {
        return false;
      }
    }
    return true;
  }

  /** Deletes the cluster role and its binding. */
  method DeleteExternalResources(c: Client, ghost p: Snap) returns (ok: bool)
    modifies c
    ensures Reaches(old(c.Here(ReadingRole(p))), c.Here(if ok then RemovingFinalizer(p) else Finished(Err)))
  {
    ghost var start := c.Here(ReadingRole(p));
    ok := DeleteFound(c, ROLE_KEY, ReadingRole(p), DeletingRole(p), ReadingBinding(p));
    if !ok {
      return false;
    }
    ghost var mid := c.Here(ReadingBinding(p));
    ok := DeleteFound(c, BINDING_KEY, ReadingBinding(p), DeletingBinding(p), RemovingFinalizer(p));
    ReachesTrans(start, mid, c.Here(if ok then RemovingFinalizer(p) else Finished(Err)));
  }

  /** The calls of one reconcile request: the way of the pass machine, whatever goes wrong. */
  method MakePass(c: Client, n: CrName) returns (result: Result)
    modifies c
    ensures Reaches(old(c.Here(Fetching(n))), c.Here(Finished(result)))
  {
    hide Build, LookupKey, Ticked;
    ghost var start := c.Here(Fetching(n));
    ReachesSelf(start);
    var reply := c.Do(GetCr(n), Fetching(n), start);
    if !reply.GotCr? {
      if reply.Missing? {
        return Ok(false);
      }
      return Err;
    }
    var p := Snap(n, reply.rev, reply.cr);

    if Validate(p.cr.spec).Some? {
      reply := c.Do(PutStatus(n, p.rev, InvalidStatus(p.cr.spec)), WritingStatus(p), start);
      return if reply.Success? then Ok(false) else Err;
    }

    ghost var mid := c.Here(LookingUpCrd(p));
    var ok := EnsureAllResources(c, p);
    ReachesTrans(start, mid, c.Here(if ok then AfterEnsure(p) else Finished(Err)));
    if !ok {
      return Err;
    }

    var marked := ContainsString(p.cr.finalizers, FINALIZER);
    if !p.cr.deleting {
      if !marked {
        assert AfterEnsure(p) == AddingFinalizer(p);
        reply := c.Do(PutCr(n, p.rev, p.cr.(finalizers := WithFinalizer(p.cr.finalizers))), AddingFinalizer(p), start);
        if !reply.Success? {
          return Err;
        }
      }
    } else {
      if marked {
        assert AfterEnsure(p) == ReadingRole(p);
        mid := c.Here(ReadingRole(p));
        ok := DeleteExternalResources(c, p);
        ReachesTrans(start, mid, c.Here(if ok then RemovingFinalizer(p) else Finished(Err)));
        if !ok {
          return Err;
        }
        var freed := p.cr.(finalizers := Without(p.cr.finalizers, FINALIZER));
        reply := c.Do(PutCr(n, p.rev, freed), RemovingFinalizer(p), start);
        if !reply.Success? {
          return Err;
        }
      }
      return Ok(false);
    }
    return Ok(true);
  }

  /** One reconcile request: the whole pass, and without faults the closed form. The result says whether the work is
      done. */
  method Reconcile(c: Client, n: CrName) returns (result: Result)
    modifies c
    ensures c.Here(Finished(result)) == Exec(old(c.Here(Fetching(n))))
    ensures old(c.faults) == [] ==> (c.st.c, result) == FullPass(old(c.st.c), n)
    ensures result.Err? <==> Disturbed(old(c.Here(Fetching(n)))) || Stuck(old(c.st.c), n)
    ensures result.Ok? ==>
              && WorkDone(old(c.st.c), n, c.st.c, First(Rest(old(c.faults))).Fine?)
              && (result.requeue <==> Requeues(old(c.st.c), n))
  {
    result := MakePass(c, n);
    ReachesExec(old(c.Here(Fetching(n))), c.Here(Finished(result)));
    PassIsFullPass(old(c.st), n);
    ResultMeaning(old(c.st), n, old(c.faults));
  }
}
