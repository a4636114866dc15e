/** The older child-process manager (`childproc`): the same launch, but each
    relay hands its copy error to Wait over its own unbuffered channel, Wait
    collects in a different order, four close errors are dropped, and the
    child is started with the command line minus its first word. */
module LegacyChildproc {
  import opened Errors
  import opened Lifecycle

  /** A spawned child: resources and history, and the once guard of Wait.
      Unbuffered channels hold nothing between a send and its receive, so
      there is no channel state. */
  datatype Process = Process(m: Machine, once: Once)

  datatype SpawnResult = SpawnFailed(err: SpawnError, m: Machine) | Spawned(proc: Process)

  /** The state Spawn leaves behind: the child's stdout write end closed once,
      every other resource open and never closed, and nothing of Wait or of
      the relays' handoffs yet. */
  ghost predicate Fresh(p: Process) {
    && p.once == Pending
    && (forall x: Resource :: x in p.m.res && p.m.res[x] == (if x == StdoutWrite then Closed else Open))
    && (forall x: Resource :: ClosesOf(p.m, x) == (if x == StdoutWrite then 1 else 0))
    && ProcessWaited !in p.m.trace && Drained !in p.m.trace
  }

  /** Spawn as written: argv is the command line without its first word, and
      the error of closing the child's stdout write end is dropped. */
  function Spawn(cmdline: seq<string>, env: SpawnEnv): (r: SpawnResult)
    requires |cmdline| > 0
    ensures r.SpawnFailed? <==> !LaunchClean(env)
    ensures r.SpawnFailed? ==> r.err == Launch(cmdline[0], cmdline[1..], env).err && r.err.cause != Nil
    ensures r.SpawnFailed? ==> Untouched(r.m) && PipesReleased(r.m)
    ensures r.Spawned? ==> StartProcess(env.path, cmdline[1..], ChildFds) in r.proc.m.trace
    ensures r.Spawned? ==> Fresh(r.proc)
  {
    var l := Launch(cmdline[0], cmdline[1..], env);
    if l.LaunchFailed? then SpawnFailed(l.err, l.m)
    else
      SpawnedFacts(l.m);
      Spawned(Process(l.m.CloseRes(StdoutWrite), Pending))
  }

  /** Whatever closing the stdout write end returned, Spawn's outcome is the same. */
  lemma SpawnDropsCloseError(cmdline: seq<string>, env: SpawnEnv)
    requires |cmdline| > 0
    ensures Spawn(cmdline, env) == Spawn(cmdline, env.(stdoutWriteClose := Nil))
  {
  }

  lemma SpawnedFacts(m0: Machine)
    requires AllOpen(m0) && LaunchEventsOnly(m0.trace)
    ensures Fresh(Process(m0.CloseRes(StdoutWrite), Pending))
    ensures forall ev :: ev in m0.trace ==> ev in m0.CloseRes(StdoutWrite).trace
  {
    var m := m0.CloseRes(StdoutWrite);
    forall x: Resource
      ensures ClosesOf(m, x) == (if x == StdoutWrite then 1 else 0)
    {
      CloseCounts(m0, StdoutWrite, x);
    }
    LaunchNoTraffic(m0.trace);
  }

  /** What the once-guarded function of Wait does, in the one order the
      handoffs allow: the process wait, the reader close (ending the input
      relay's copy; that relay then closes the stdin write end), the drain,
      the handoff of the input relay's copy error, the close of the stdin read
      end, and the handoff of the output relay's copy error once it has closed
      the stdout read end and the writer. */
  function ShutdownEvents(env: WaitEnv): (r: seq<Event>)
    // every resource except the child's stdout write end, which Spawn
    // closed, is closed exactly once, and the process is waited for once
    ensures ClosesAllButStdoutWrite(r)
    ensures multiset(r)[ProcessWaited] == 1
  {
    PhaseCounts(env);
    PhaseWaits(env);
    WaitPhase(env) + CollectPhase(env) + OutputPhase(env)
  }

  function WaitPhase(env: WaitEnv): seq<Event> {
    [ProcessWaited, Close(Reader), CopyFinished(InputRelay), Close(StdinWrite)]
  }

  function CollectPhase(env: WaitEnv): seq<Event> {
    [Drained, Handoff(InputRelay, env.inputCopy), Close(StdinRead)]
  }

  function OutputPhase(env: WaitEnv): seq<Event> {
    [CopyFinished(OutputRelay), Close(StdoutRead), Close(Writer), Handoff(OutputRelay, env.outputCopy)]
  }

  /** The six values appended to the multierror, in order. The errors of the
      stdin write end's close, the stdout read end's close and the writer's
      close are not among them. */
  function Slots(env: WaitEnv): (r: seq<ErrVal>)
    // the six values are all nil exactly when these six outcomes are; no
    // other outcome can make Wait fail
    ensures AllNil(r) <==> SlotsClean(env)
  {
    var r := [env.processWait, env.readerClose, env.drain, env.inputCopy, env.stdinReadClose, env.outputCopy];
    assert AllNil(r) ==> r[0] == Nil && r[1] == Nil && r[2] == Nil && r[3] == Nil && r[4] == Nil && r[5] == Nil;
    r
  }

  predicate SlotsClean(env: WaitEnv) {
    && env.processWait == Nil && env.readerClose == Nil && env.drain == Nil
    && env.inputCopy == Nil && env.stdinReadClose == Nil && env.outputCopy == Nil
  }

  /** Every resource closed, each exactly once, and the process waited once. */
  ghost predicate Finished(p: Process) {
    && p.once.Done?
    && AllClosedOnce(p.m)
    && multiset(p.m.trace)[ProcessWaited] == 1
  }

  /** Wait: the first call runs the shutdown and freezes the result; later
      calls return it and do nothing. */
  function Wait(p: Process, env: WaitEnv): (r: (Process, WaitResult))
    ensures r.0.once == Done(r.1)
    ensures p.once.Done? ==> r == (p, p.once.result)
    ensures p.once.Pending? ==> (r.1.NoError? <==> SlotsClean(env))
    ensures p.once.Pending? && r.1.Composite? ==> r.1.errs == NonNil(Slots(env))
    ensures p.once.Pending? ==> r.0.m.trace == p.m.trace + ShutdownEvents(env)
    ensures Fresh(p) ==> Finished(r.0)
  {
    if p.once.Done? then (p, p.once.result)
    else
      var result := Aggregate(Slots(env));
      FreshFinishes(p, env);
      (Process(Play(p.m, ShutdownEvents(env)), Done(result)), result)
  }

  lemma WaitPhaseCounts(env: WaitEnv, x: Resource)
    ensures multiset(WaitPhase(env))[Close(x)] == (if x == Reader || x == StdinWrite then 1 else 0)
  {
  }

  lemma CollectPhaseCounts(env: WaitEnv, x: Resource)
    ensures multiset(CollectPhase(env))[Close(x)] == (if x == StdinRead then 1 else 0)
  {
  }

  lemma OutputPhaseCounts(env: WaitEnv, x: Resource)
    ensures multiset(OutputPhase(env))[Close(x)] == (if x == StdoutRead || x == Writer then 1 else 0)
  {
  }

  /** Every resource except the child's stdout write end is closed exactly
      once in `t`, and that one never. */
  ghost predicate ClosesAllButStdoutWrite(t: seq<Event>) {
    forall x: Resource :: multiset(t)[Close(x)] == (if x == StdoutWrite then 0 else 1)
  }

  lemma PhaseCounts(env: WaitEnv)
    ensures ClosesAllButStdoutWrite(WaitPhase(env) + CollectPhase(env) + OutputPhase(env))
  {
    forall x: Resource
      ensures multiset(WaitPhase(env) + CollectPhase(env) + OutputPhase(env))[Close(x)] ==
                (if x == StdoutWrite then 0 else 1)
    {
      PhaseCloses(env, x);
    }
  }

  lemma PhaseWaits(env: WaitEnv)
    ensures multiset(WaitPhase(env) + CollectPhase(env) + OutputPhase(env))[ProcessWaited] == 1
  {
    assert ProcessWaited !in CollectPhase(env) && ProcessWaited !in OutputPhase(env);
  }

  lemma PhaseCloses(env: WaitEnv, x: Resource)
    ensures multiset(WaitPhase(env) + CollectPhase(env) + OutputPhase(env))[Close(x)] ==
              (if x == StdoutWrite then 0 else 1)
  {
    WaitPhaseCounts(env, x);
    CollectPhaseCounts(env, x);
    OutputPhaseCounts(env, x);
    ResourceCases(x);
  }

  lemma FinalResource(m0: Machine, env: WaitEnv, x: Resource)
    requires x in m0.res && ClosesOf(m0, x) == (if x == StdoutWrite then 1 else 0)
    requires x == StdoutWrite ==> m0.res[x] == Closed
    ensures x in Play(m0, ShutdownEvents(env)).res
    ensures Play(m0, ShutdownEvents(env)).res[x] == Closed
    ensures ClosesOf(Play(m0, ShutdownEvents(env)), x) == 1
  {
    assert x != StdoutWrite ==> Close(x) in multiset(ShutdownEvents(env));
  }

  lemma ShutdownFinishes(p: Process, env: WaitEnv)
    requires Fresh(p)
    ensures Finished(Process(Play(p.m, ShutdownEvents(env)), Done(Aggregate(Slots(env)))))
  {
    var m := Play(p.m, ShutdownEvents(env));
    assert AllClosedOnce(m) by {
      forall x: Resource
        ensures x in m.res && m.res[x] == Closed && ClosesOf(m, x) == 1
      {
        FinalResource(p.m, env, x);
      }
    }
    assert multiset(m.trace)[ProcessWaited] == 1 by {
      assert m.trace == p.m.trace + ShutdownEvents(env);
    }
  }

  lemma FreshFinishes(p: Process, env: WaitEnv)
    ensures Fresh(p) ==> Finished(Process(Play(p.m, ShutdownEvents(env)), Done(Aggregate(Slots(env)))))
  {
    if Fresh(p) {
      ShutdownFinishes(p, env);
    }
  }

  /** The order of Wait's steps and the relays' closes and handoffs: each
      relay closes only after its copy has finished, the output relay closes
      the stdout read end before the writer, each relay closes what it closes
      before handing over its copy error, and Wait receives the input
      relay's error between the drain and the close of the stdin read end,
      and the output relay's last. */
  ghost predicate Ordered(t: seq<Event>, env: WaitEnv) {
    && Precedes(t, ProcessWaited, Close(Reader))
    && Precedes(t, Close(Reader), Drained)
    && Precedes(t, Close(StdinWrite), Drained)
    && Precedes(t, Close(StdinWrite), Handoff(InputRelay, env.inputCopy))
    && Precedes(t, Drained, Handoff(InputRelay, env.inputCopy))
    && Precedes(t, Handoff(InputRelay, env.inputCopy), Close(StdinRead))
    && Precedes(t, Close(StdinRead), Handoff(OutputRelay, env.outputCopy))
    && Precedes(t, Close(StdoutRead), Handoff(OutputRelay, env.outputCopy))
    && Precedes(t, Close(Writer), Handoff(OutputRelay, env.outputCopy))
    && RelayOrdered(t)
  }

  /** Whatever happened before, Wait's shutdown happens in that order. */
  lemma ShutdownOrder(t0: seq<Event>, env: WaitEnv)
    ensures Ordered(t0 + ShutdownEvents(env), env)
  {
    EventsInOrder(env);
    OrderedAfter(t0, env);
  }

  lemma OrderedAfter(t0: seq<Event>, env: WaitEnv)
    ensures Ordered(t0 + [ ProcessWaited, Close(Reader), CopyFinished(InputRelay), Close(StdinWrite),
                           Drained, Handoff(InputRelay, env.inputCopy), Close(StdinRead),
                           CopyFinished(OutputRelay), Close(StdoutRead), Close(Writer),
                           Handoff(OutputRelay, env.outputCopy) ], env)
  {
    var t := t0 + [ ProcessWaited, Close(Reader), CopyFinished(InputRelay), Close(StdinWrite),
                    Drained, Handoff(InputRelay, env.inputCopy), Close(StdinRead),
                    CopyFinished(OutputRelay), Close(StdoutRead), Close(Writer),
                    Handoff(OutputRelay, env.outputCopy) ];
    var n := |t0|;
    assert t[n] == ProcessWaited && t[n + 1] == Close(Reader);
    assert t[n + 2] == CopyFinished(InputRelay) && t[n + 3] == Close(StdinWrite);
    assert t[n + 4] == Drained && t[n + 5] == Handoff(InputRelay, env.inputCopy) && t[n + 6] == Close(StdinRead);
    assert t[n + 7] == CopyFinished(OutputRelay) && t[n + 8] == Close(StdoutRead);
    assert t[n + 9] == Close(Writer) && t[n + 10] == Handoff(OutputRelay, env.outputCopy);
  }

  lemma EventsInOrder(env: WaitEnv)
    ensures ShutdownEvents(env) ==
              [ ProcessWaited, Close(Reader), CopyFinished(InputRelay), Close(StdinWrite),
                Drained, Handoff(InputRelay, env.inputCopy), Close(StdinRead),
                CopyFinished(OutputRelay), Close(StdoutRead), Close(Writer), Handoff(OutputRelay, env.outputCopy) ]
  {
  }

  /** Only the six slots matter: the close errors of the stdin write end, the
      stdout read end and the writer never reach the result. */
  lemma IgnoresCloseErrors(p: Process, env1: WaitEnv, env2: WaitEnv)
    requires p.once.Pending?
    requires Slots(env1) == Slots(env2)
    ensures Wait(p, env1).1 == Wait(p, env2).1
  {
  }

  /** Several calls of Wait on one process, in order. */
  function WaitAll(p: Process, envs: seq<WaitEnv>): (r: (Process, seq<WaitResult>))
    ensures |r.1| == |envs|
    decreases |envs|
  {
    if |envs| == 0 then (p, [])
    else
      var first := Wait(p, envs[0]);
      var rest := WaitAll(first.0, envs[1..]);
      (rest.0, [first.1] + rest.1)
  }

  lemma {:induction false} WaitAfterDone(q: Process, envs: seq<WaitEnv>)
    requires q.once.Done?
    ensures WaitAll(q, envs).0 == q
    ensures forall i :: 0 <= i < |envs| ==> WaitAll(q, envs).1[i] == q.once.result
    decreases |envs|
  {
    if |envs| > 0 {
      WaitAfterDone(q, envs[1..]);
    }
  }

  /** However many times Wait is called, the shutdown runs once and every call
      returns the first call's result. */
  lemma WaitOnce(p: Process, envs: seq<WaitEnv>)
    requires |envs| > 0
    ensures WaitAll(p, envs).0 == Wait(p, envs[0]).0
    ensures forall i :: 0 <= i < |envs| ==> WaitAll(p, envs).1[i] == WaitAll(p, envs).1[0]
    ensures Fresh(p) ==> multiset(WaitAll(p, envs).0.m.trace)[ProcessWaited] == 1
  {
    WaitAfterDone(Wait(p, envs[0]).0, envs[1..]);
  }
}
