/** The two versions of the child-process manager side by side: what each
    reports, and how each starts the child. */
module Comparison {
  import opened Errors
  import opened Lifecycle
  import Childproc
  import LegacyChildproc

  /** Every error the older Wait can report, the current one reports too;
      the current one also reports the four close errors the older one drops. */
  lemma ReportedSuperset(spawnErr: ErrVal, env: WaitEnv, e: ErrVal)
    requires e in NonNil(LegacyChildproc.Slots(env))
    ensures e in NonNil(Childproc.Reported(spawnErr, env))
  {
    assert e.Failure? && e in multiset(NonNil(LegacyChildproc.Slots(env)));
    assert e in LegacyChildproc.Slots(env);
    assert e in Childproc.Reported(spawnErr, env);
    assert e in multiset(NonNil(Childproc.Reported(spawnErr, env)));
  }

  /** Given a pending process of each version and the same outcomes, the older
      Wait fails only if the current one does, and each error it reports is
      one the current one reports. Spawn leaves both in such a state. */
  lemma CurrentReportsMore(p: Childproc.Process, q: LegacyChildproc.Process, env: WaitEnv, schedule: seq<bool>)
    requires p.once.Pending? && |p.errCh| == 1 && q.once.Pending?
    ensures Childproc.Wait(p, env, schedule).1.NoError? ==> LegacyChildproc.Wait(q, env).1.NoError?
    ensures LegacyChildproc.Wait(q, env).1.Composite? ==> Childproc.Wait(p, env, schedule).1.Composite?
    ensures LegacyChildproc.Wait(q, env).1.Composite? ==>
              forall e :: e in LegacyChildproc.Wait(q, env).1.errs ==> e in Childproc.Wait(p, env, schedule).1.errs
  {
    var cur, was := Childproc.Wait(p, env, schedule).1, LegacyChildproc.Wait(q, env).1;
    if was.Composite? {
      forall e | e in was.errs
        ensures e in cur.errs
      {
        ReportedSuperset(p.errCh[0], env, e);
        assert e in multiset(NonNil(Childproc.Reported(p.errCh[0], env)));
      }
    }
  }

  /** The outcomes of a child whose only failure is its writer's close. */
  function WriterCloseFails(): WaitEnv {
    WaitEnv(Nil, Nil, Nil, Nil, Nil, Nil, Nil, Nil, Failure("close"))
  }

  lemma WriterCloseReported()
    ensures NonNil(Childproc.Reported(Nil, WriterCloseFails())) == [Failure("close")]
    ensures LegacyChildproc.SlotsClean(WriterCloseFails())
  {
  }

  /** A writer whose close fails: the older version reports nothing, the
      current one reports exactly that error. */
  lemma WriterCloseFailure(p: Childproc.Process, q: LegacyChildproc.Process, schedule: seq<bool>)
    requires p.once.Pending? && p.errCh == [Nil] && q.once.Pending?
    ensures LegacyChildproc.Wait(q, WriterCloseFails()).1 == NoError
    ensures Childproc.Wait(p, WriterCloseFails(), schedule).1 == Composite([Failure("close")])
  {
    var r := Childproc.Wait(p, WriterCloseFails(), schedule).1;
    WriterCloseReported();
    OnlyError(r, Failure("close"));
  }

  /** A composite result whose errors, as a multiset, are one error. */
  lemma OnlyError(r: WaitResult, e: ErrVal)
    requires r.Composite? && multiset(r.errs) == multiset([e])
    ensures r == Composite([e])
  {
    assert |r.errs| == |multiset(r.errs)| == 1;
    assert r.errs[0] in multiset(r.errs);
  }

  /** The launch outcomes used by the examples below: everything succeeds. */
  function EchoEnv(): SpawnEnv {
    SpawnEnv("/bin/echo", Nil, Nil, Nil, Nil, Nil)
  }

  /** The older Spawn starts `echo hi` with argv ["hi"]: the child sees "hi"
      as its own name and no arguments. */
  lemma LegacyArgvDropsName()
    ensures LegacyChildproc.Spawn(["echo", "hi"], EchoEnv()).Spawned?
    ensures StartProcess("/bin/echo", ["hi"], ChildFds) in LegacyChildproc.Spawn(["echo", "hi"], EchoEnv()).proc.m.trace
    ensures StartProcess("/bin/echo", ["echo", "hi"], ChildFds) !in LegacyChildproc.Spawn(["echo", "hi"], EchoEnv()).proc.m.trace
  {
    var t := LegacyChildproc.Spawn(["echo", "hi"], EchoEnv()).proc.m.trace;
    assert ["echo", "hi"][1..] == ["hi"];
    assert t == AfterStart("echo", "/bin/echo", ["hi"]).trace + [Close(StdoutWrite)];
    StartedTrace("echo", "/bin/echo", ["hi"]);
  }

  /** The current Spawn starts `echo hi` with argv ["echo", "hi"]. */
  lemma CurrentArgvKeepsName()
    ensures Childproc.Spawn(["echo", "hi"], EchoEnv()).Spawned?
    ensures StartProcess("/bin/echo", ["echo", "hi"], ChildFds) in Childproc.Spawn(["echo", "hi"], EchoEnv()).proc.m.trace
  {
  }
}
