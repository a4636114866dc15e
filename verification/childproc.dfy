/** The current child-process manager (`internal/childproc`): Spawn, the two
    relay goroutines that report into one buffered error channel, and the
    once-guarded Wait that shuts everything down in a fixed order. */
module Childproc {
  import opened Errors
  import opened Interleave
  import opened Lifecycle

  /** Capacity of the error channel, and the number of values Wait takes out
      of it: one from Spawn, two from the input relay, three from the output
      relay. */
  const NumWaitErrors: nat := 6

  /** A spawned child: its resources and history, the values buffered in its
      error channel (oldest first), and the state of the once guard. */
  datatype Process = Process(m: Machine, errCh: seq<ErrVal>, once: Once)

  datatype SpawnResult = SpawnFailed(err: SpawnError, m: Machine) | Spawned(proc: Process)

  /** The state Spawn leaves behind: the child's stdout write end closed once,
      every other resource open and never closed, Spawn's one send buffered,
      and none of Wait's steps taken. */
  ghost predicate Fresh(p: Process) {
    && p.once == Pending
    && |p.errCh| == 1
    && (forall x: Resource :: x in p.m.res && p.m.res[x] == (if x == StdoutWrite then Closed else Open))
    && (forall x: Resource :: ClosesOf(p.m, x) == (if x == StdoutWrite then 1 else 0))
    && SentValues(p.m.trace) == p.errCh
    && NoReceives(p.m.trace)
    && ProcessWaited !in p.m.trace && Drained !in p.m.trace
  }

  /** Spawn: the shared launch with argv = the whole command line, then the
      close of the child's stdout write end, whose error is the first value
      sent into the channel. The relays and the background Wait are started
      here but run later (see `Wait`). */
  function Spawn(cmdline: seq<string>, env: SpawnEnv): (r: SpawnResult)
    requires |cmdline| > 0
    // a failed call makes Spawn fail, with no process, and nothing else does
    ensures r.SpawnFailed? <==> !LaunchClean(env)
    ensures r.SpawnFailed? ==> r.err == Launch(cmdline[0], cmdline, env).err && r.err.cause != Nil
    // a failure leaves the caller's endpoints alone and releases the pipes it made
    ensures r.SpawnFailed? ==> Untouched(r.m) && PipesReleased(r.m)
    // the program is looked up by the first word and started with all of them
    ensures r.Spawned? ==> |r.proc.m.trace| > 0 && r.proc.m.trace[0] == LookPath(cmdline[0])
    ensures r.Spawned? ==> StartProcess(env.path, cmdline, ChildFds) in r.proc.m.trace
    ensures r.Spawned? ==> Fresh(r.proc) && r.proc.errCh == [env.stdoutWriteClose]
  {
    var l := Launch(cmdline[0], cmdline, env);
    if l.LaunchFailed? then SpawnFailed(l.err, l.m)
    else
      var m := l.m.CloseRes(StdoutWrite).Emit(Sent(Spawner, env.stdoutWriteClose));
      SpawnedFacts(l.m, env.stdoutWriteClose);
      Spawned(Process(m, [env.stdoutWriteClose], Pending))
  }

  lemma SpawnedFacts(m0: Machine, e: ErrVal)
    requires AllOpen(m0) && LaunchEventsOnly(m0.trace) && |m0.trace| > 0
    ensures Fresh(Process(m0.CloseRes(StdoutWrite).Emit(Sent(Spawner, e)), [e], Pending))
    ensures m0.CloseRes(StdoutWrite).Emit(Sent(Spawner, e)).trace[0] == m0.trace[0]
    ensures forall ev :: ev in m0.trace ==> ev in m0.CloseRes(StdoutWrite).Emit(Sent(Spawner, e)).trace
  {
    var m1 := m0.CloseRes(StdoutWrite);
    var m := m1.Emit(Sent(Spawner, e));
    var tail := [Close(StdoutWrite), Sent(Spawner, e)];
    assert m.trace == m0.trace + tail;
    forall x: Resource
      ensures ClosesOf(m, x) == (if x == StdoutWrite then 1 else 0)
    {
      CloseCounts(m0, StdoutWrite, x);
      EmitCounts(m1, Sent(Spawner, e), x);
    }
    LaunchNoTraffic(m0.trace);
    FlatMapAppend(SentOf, m0.trace, tail);
    assert SentValues(tail) == [e] by {
      assert FlatMap(SentOf, tail[1..]) == [e] + FlatMap(SentOf, tail[1..][1..]);
      assert tail[1..][1..] == [];
    }
    assert NoReceives(m.trace) by {
      forall i | 0 <= i < |m.trace| ensures !m.trace[i].Received? {
        if i >= |m0.trace| {
          assert m.trace[i] == tail[i - |m0.trace|];
        }
      }
    }
  }

  // The relays, as steps in a schedule.

  /** One step of a relay goroutine: its copy finishing, or one of its closes;
      either way followed by a send of the step's error into the channel. */
  datatype RelayStep = CopyStep(sender: Actor, err: ErrVal) | CloseStep(sender: Actor, res: Resource, err: ErrVal)

  /** Every step of `steps` is taken by `a`, the values it sends are `vs`, in
      this order, and the resources it closes are `closes`. */
  ghost predicate RelayDoes(steps: seq<RelayStep>, a: Actor, vs: seq<ErrVal>, closes: set<Resource>) {
    && (forall k :: 0 <= k < |steps| ==> steps[k].sender == a)
    && FlatMap(StepValue, steps) == vs
    && ClosedBy(steps) == closes
  }

  /** The input relay copies from the reader into the stdin pipe, then closes
      that pipe's write end. It does not close the reader. */
  function InputRelaySteps(env: WaitEnv): seq<RelayStep> {
    [CopyStep(InputRelay, env.inputCopy), CloseStep(InputRelay, StdinWrite, env.stdinWriteClose)]
  }

  /** The input relay sends its copy error, then its close error, and closes
      only the stdin write end. */
  lemma InputRelayDoes(env: WaitEnv)
    ensures RelayDoes(InputRelaySteps(env), InputRelay, [env.inputCopy, env.stdinWriteClose], {StdinWrite})
  {
    var r := InputRelaySteps(env);
    FlatMapPair(StepValue, r[0], r[1]);
    assert r[1] in r;
  }

  /** The output relay copies from the stdout pipe into the writer, then closes
      the pipe's read end and then the writer. */
  function OutputRelaySteps(env: WaitEnv): seq<RelayStep> {
    [ CopyStep(OutputRelay, env.outputCopy),
      CloseStep(OutputRelay, StdoutRead, env.stdoutReadClose),
      CloseStep(OutputRelay, Writer, env.writerClose) ]
  }

  /** The output relay sends its copy error, then its two close errors, and
      closes only the stdout read end and the caller's writer. */
  lemma OutputRelayDoes(env: WaitEnv)
    ensures RelayDoes(OutputRelaySteps(env), OutputRelay, [env.outputCopy, env.stdoutReadClose, env.writerClose], {StdoutRead, Writer})
  {
    var r := OutputRelaySteps(env);
    FlatMapTriple(StepValue, r[0], r[1], r[2]);
    assert r[1] in r && r[2] in r;
  }

  /** The two relays' steps, interleaved as the scheduler chose. */
  function RelaySchedule(env: WaitEnv, schedule: seq<bool>): seq<RelayStep> {
    Merge(InputRelaySteps(env), OutputRelaySteps(env), schedule)
  }

  function StepEvents(s: RelayStep): seq<Event> {
    match s
    case CopyStep(a, e) => [CopyFinished(a), Sent(a, e)]
    case CloseStep(a, x, e) => [Close(x), Sent(a, e)]
  }

  /** The value a step sends into the channel. */
  function StepValue(s: RelayStep): seq<ErrVal> {
    [s.err]
  }

  function ApplyStep(m: Machine, s: RelayStep): (r: Machine)
    ensures r.trace == m.trace + StepEvents(s)
  {
    match s
    case CopyStep(a, e) => m.Emit(CopyFinished(a)).Emit(Sent(a, e))
    case CloseStep(a, x, e) => m.CloseRes(x).Emit(Sent(a, e))
  }

  /** The resources some step closes. */
  function ClosedBy(steps: seq<RelayStep>): set<Resource> {
    set s | s in steps && s.CloseStep? :: s.res
  }

  /** The relays' steps in the given order, each send going into the buffered
      channel `ch` of capacity `cap`; the precondition is that no send ever
      finds the channel full. */
  function RunRelays(m: Machine, ch: seq<ErrVal>, steps: seq<RelayStep>, cap: nat): (r: (Machine, seq<ErrVal>))
    requires |ch| + |steps| <= cap
    ensures r.0.trace == m.trace + FlatMap(StepEvents, steps)
    ensures r.1 == ch + FlatMap(StepValue, steps) && |r.1| <= cap
    ensures forall x :: x in r.0.res <==> x in m.res || x in ClosedBy(steps)
    ensures forall x :: x in r.0.res ==> r.0.res[x] == (if x in ClosedBy(steps) then Closed else m.res[x])
    decreases |steps|
  {
    if |steps| == 0 then (m, ch)
    else
      assert forall s :: s in steps <==> s == steps[0] || s in steps[1..];
      RunRelays(ApplyStep(m, steps[0]), ch + [steps[0].err], steps[1..], cap)
  }

  function ReceiveEvent(v: ErrVal): seq<Event> {
    [Received(v)]
  }

  /** Wait's receive loop: the first `n` values of the channel, taken in order. */
  function Collect(m: Machine, ch: seq<ErrVal>, n: nat): (r: (Machine, seq<ErrVal>, seq<ErrVal>))
    requires n <= |ch|
    ensures r.0.res == m.res
    ensures r.0.trace == m.trace + FlatMap(ReceiveEvent, r.1)
    ensures r.1 + r.2 == ch && |r.1| == n
    decreases n
  {
    if n == 0 then (m, [], ch)
    else
      var rest := Collect(m.Emit(Received(ch[0])), ch[1..], n - 1);
      assert ch == [ch[0]] + ch[1..];
      (rest.0, [ch[0]] + rest.1, rest.2)
  }

  lemma {:induction false} ReceivesOnly(vs: seq<ErrVal>)
    ensures |FlatMap(ReceiveEvent, vs)| == |vs|
    ensures forall i :: 0 <= i < |vs| ==> FlatMap(ReceiveEvent, vs)[i] == Received(vs[i])
    ensures ReceivedValues(FlatMap(ReceiveEvent, vs)) == vs
    ensures SentValues(FlatMap(ReceiveEvent, vs)) == []
    decreases |vs|
  {
    if |vs| > 0 {
      ReceivesOnly(vs[1..]);
      var t := FlatMap(ReceiveEvent, vs);
      assert t == [Received(vs[0])] + FlatMap(ReceiveEvent, vs[1..]);
      assert t[1..] == FlatMap(ReceiveEvent, vs[1..]);
      assert vs == [vs[0]] + vs[1..];
    }
  }

  lemma {:induction false} StepValuesLength(steps: seq<RelayStep>)
    ensures |FlatMap(StepValue, steps)| == |steps|
    decreases |steps|
  {
    if |steps| > 0 {
      StepValuesLength(steps[1..]);
    }
  }

  /** A relay step's send is the only send it makes. */
  lemma {:induction false} RelaySends(steps: seq<RelayStep>)
    ensures SentValues(FlatMap(StepEvents, steps)) == FlatMap(StepValue, steps)
    decreases |steps|
  {
    if |steps| > 0 {
      RelaySends(steps[1..]);
      var ev := StepEvents(steps[0]);
      FlatMapAppend(SentOf, ev, FlatMap(StepEvents, steps[1..]));
      assert SentValues(ev) == [steps[0].err] by {
        assert FlatMap(SentOf, ev[1..]) == [steps[0].err] + FlatMap(SentOf, ev[1..][1..]);
        assert ev[1..][1..] == [];
      }
    }
  }

  function InputRelayEvents(env: WaitEnv): seq<Event> {
    [CopyFinished(InputRelay), Sent(InputRelay, env.inputCopy), Close(StdinWrite), Sent(InputRelay, env.stdinWriteClose)]
  }

  function OutputRelayEvents(env: WaitEnv): seq<Event> {
    [ CopyFinished(OutputRelay), Sent(OutputRelay, env.outputCopy),
      Close(StdoutRead), Sent(OutputRelay, env.stdoutReadClose),
      Close(Writer), Sent(OutputRelay, env.writerClose) ]
  }

  lemma InputRelayUnfold(env: WaitEnv)
    ensures FlatMap(StepEvents, InputRelaySteps(env)) == InputRelayEvents(env)
  {
    var a := InputRelaySteps(env);
    FlatMapPair(StepEvents, a[0], a[1]);
  }

  lemma OutputRelayUnfold(env: WaitEnv)
    ensures FlatMap(StepEvents, OutputRelaySteps(env)) == OutputRelayEvents(env)
  {
    var b := OutputRelaySteps(env);
    FlatMapTriple(StepEvents, b[0], b[1], b[2]);
  }

  /** What the relays do, whatever the schedule: each relay's events, once. */
  lemma RelayEvents(env: WaitEnv, schedule: seq<bool>)
    ensures multiset(FlatMap(StepEvents, RelaySchedule(env, schedule))) ==
              multiset(InputRelayEvents(env)) + multiset(OutputRelayEvents(env))
  {
    FlatMapMerge(StepEvents, InputRelaySteps(env), OutputRelaySteps(env), schedule);
    InputRelayUnfold(env);
    OutputRelayUnfold(env);
  }

  /** Under any schedule, each relay's own events keep their program order. */
  lemma RelayEventOrder(env: WaitEnv, schedule: seq<bool>)
    ensures Subseq(InputRelayEvents(env), FlatMap(StepEvents, RelaySchedule(env, schedule)))
    ensures Subseq(OutputRelayEvents(env), FlatMap(StepEvents, RelaySchedule(env, schedule)))
  {
    var a, b := InputRelaySteps(env), OutputRelaySteps(env);
    MergeKeepsOrder(a, b, schedule);
    SubseqFlatMap(StepEvents, a, RelaySchedule(env, schedule));
    SubseqFlatMap(StepEvents, b, RelaySchedule(env, schedule));
    InputRelayUnfold(env);
    OutputRelayUnfold(env);
  }

  /** Under any schedule, each relay closes only after its copy has
      finished, and the output relay closes the stdout read end before the
      writer. */
  lemma RelayOrder(env: WaitEnv, schedule: seq<bool>)
    ensures RelayOrdered(FlatMap(StepEvents, RelaySchedule(env, schedule)))
  {
    var t := FlatMap(StepEvents, RelaySchedule(env, schedule));
    var a, b := InputRelayEvents(env), OutputRelayEvents(env);
    RelayEventOrder(env, schedule);
    SubseqPrecedes(a, t, 0, 2);
    SubseqPrecedes(b, t, 0, 2);
    SubseqPrecedes(b, t, 2, 4);
    SubseqPrecedes(b, t, 0, 4);
  }

  /** Together the relays close the stdin write end, the stdout read end and
      the writer, each once, and nothing else. */
  lemma RelayCloses(env: WaitEnv, schedule: seq<bool>, x: Resource)
    ensures multiset(FlatMap(StepEvents, RelaySchedule(env, schedule)))[Close(x)] ==
              (if x == StdinWrite || x == StdoutRead || x == Writer then 1 else 0)
  {
    RelayEvents(env, schedule);
    InputRelayCloses(env, x);
    OutputRelayCloses(env, x);
  }

  lemma InputRelayCloses(env: WaitEnv, x: Resource)
    ensures multiset(InputRelayEvents(env))[Close(x)] == (if x == StdinWrite then 1 else 0)
  {
  }

  lemma OutputRelayCloses(env: WaitEnv, x: Resource)
    ensures multiset(OutputRelayEvents(env))[Close(x)] == (if x == StdoutRead || x == Writer then 1 else 0)
  {
  }

  /** An event of either relay is a copy finishing, a close or a send. */
  ghost predicate RelayEvent(e: Event) {
    e.CopyFinished? || e.Close? || e.Sent?
  }

  lemma RelayEventKinds(env: WaitEnv, schedule: seq<bool>, e: Event)
    requires e in FlatMap(StepEvents, RelaySchedule(env, schedule))
    ensures RelayEvent(e)
    ensures e.Close? ==> e.res == StdinWrite || e.res == StdoutRead || e.res == Writer
  {
    RelayEvents(env, schedule);
    assert e in multiset(InputRelayEvents(env)) + multiset(OutputRelayEvents(env));
    if e in InputRelayEvents(env) {
      InputRelayKinds(env, e);
    } else {
      assert e in multiset(OutputRelayEvents(env));
      OutputRelayKinds(env, e);
    }
  }

  lemma InputRelayKinds(env: WaitEnv, e: Event)
    requires e in InputRelayEvents(env)
    ensures RelayEvent(e) && (e.Close? ==> e.res == StdinWrite)
  {
  }

  lemma OutputRelayKinds(env: WaitEnv, e: Event)
    requires e in OutputRelayEvents(env)
    ensures RelayEvent(e) && (e.Close? ==> e.res == StdoutRead || e.res == Writer)
  {
  }

  /** The relays neither wait, drain nor receive, and they close neither the
      reader nor the stdin read end. */
  lemma RelayQuiet(env: WaitEnv, schedule: seq<bool>)
    ensures ProcessWaited !in FlatMap(StepEvents, RelaySchedule(env, schedule))
    ensures Drained !in FlatMap(StepEvents, RelaySchedule(env, schedule))
    ensures Close(StdinRead) !in FlatMap(StepEvents, RelaySchedule(env, schedule))
    ensures Close(StdinWrite) in FlatMap(StepEvents, RelaySchedule(env, schedule))
    ensures NoReceives(FlatMap(StepEvents, RelaySchedule(env, schedule)))
  {
    var r := FlatMap(StepEvents, RelaySchedule(env, schedule));
    RelayCloses(env, schedule, StdinWrite);
    assert Close(StdinWrite) in multiset(r);
    if ProcessWaited in r { RelayEventKinds(env, schedule, ProcessWaited); }
    if Drained in r { RelayEventKinds(env, schedule, Drained); }
    if Close(StdinRead) in r { RelayEventKinds(env, schedule, Close(StdinRead)); }
    forall i | 0 <= i < |r| ensures !r[i].Received? {
      RelayEventKinds(env, schedule, r[i]);
    }
  }

  /** The values the relays send, whatever the schedule. */
  lemma RelayValues(env: WaitEnv, schedule: seq<bool>)
    ensures multiset(FlatMap(StepValue, RelaySchedule(env, schedule))) ==
              multiset([env.inputCopy, env.stdinWriteClose]) +
              multiset([env.outputCopy, env.stdoutReadClose, env.writerClose])
  {
    FlatMapMerge(StepValue, InputRelaySteps(env), OutputRelaySteps(env), schedule);
    InputRelayDoes(env);
    OutputRelayDoes(env);
  }

  lemma RelayClosedBy(env: WaitEnv, schedule: seq<bool>, x: Resource)
    ensures x in ClosedBy(RelaySchedule(env, schedule)) <==> x == StdinWrite || x == StdoutRead || x == Writer
  {
    var steps := RelaySchedule(env, schedule);
    var a, b := InputRelaySteps(env), OutputRelaySteps(env);
    assert multiset(steps) == multiset(a) + multiset(b);
    assert a[1] in multiset(steps);
    assert b[1] in multiset(steps) && b[2] in multiset(steps);
    if x in ClosedBy(steps) {
      var s :| s in steps && s.CloseStep? && s.res == x;
      assert s in multiset(steps);
    }
  }

  // Wait.

  /** The four values Wait produces itself, in the order it appends them. */
  function WaitOwn(env: WaitEnv): seq<ErrVal> {
    [env.processWait, env.readerClose, env.drain, env.stdinReadClose]
  }

  /** Every error a spawned child can report, grouped by who produced it:
      Wait, Spawn, the input relay, the output relay. */
  function Reported(spawnErr: ErrVal, env: WaitEnv): seq<ErrVal> {
    WaitOwn(env) + [spawnErr] + [env.inputCopy, env.stdinWriteClose] +
    [env.outputCopy, env.stdoutReadClose, env.writerClose]
  }

  predicate WaitClean(env: WaitEnv) {
    && env.processWait == Nil && env.readerClose == Nil && env.drain == Nil
    && env.stdinReadClose == Nil && env.inputCopy == Nil && env.stdinWriteClose == Nil
    && env.outputCopy == Nil && env.stdoutReadClose == Nil && env.writerClose == Nil
  }

  /** The body of the once-guarded function in Wait on a fresh process. The
      relays run between the reader close (which ends the input relay's copy)
      and the drain (which ends when the input relay closes its end). The
      result is the final machine, the values appended to the multierror in
      order, and what is left in the channel. */
  function Shutdown(p: Process, env: WaitEnv, schedule: seq<bool>): (r: (Machine, seq<ErrVal>, seq<ErrVal>))
    requires |p.errCh| == 1
    // Wait's own four slots, then Spawn's, then the relays' in the
    // scheduler's order; the channel is left empty
    ensures r.1 == WaitOwn(env) + [p.errCh[0]] + FlatMap(StepValue, RelaySchedule(env, schedule))
    ensures r.2 == []
  {
    var m1 := p.m.Emit(ProcessWaited).CloseRes(Reader);
    var relayed := RunRelays(m1, p.errCh, RelaySchedule(env, schedule), NumWaitErrors);
    var m3 := relayed.0.Emit(Drained).CloseRes(StdinRead);
    StepValuesLength(RelaySchedule(env, schedule));
    var got := Collect(m3, relayed.1, NumWaitErrors);
    assert p.errCh == [p.errCh[0]];
    (got.0, WaitOwn(env) + got.1, got.2)
  }

  /** The history of a shutdown, segment by segment. */
  function ShutdownHistory(t0: seq<Event>, relays: seq<Event>, vs: seq<ErrVal>): seq<Event> {
    t0 + [ProcessWaited, Close(Reader)] + relays + [Drained, Close(StdinRead)] + FlatMap(ReceiveEvent, vs)
  }

  /** What Wait does, in this order, whatever happened before: it waits for
      the process exactly once, then closes the reader, then finishes draining
      the stdin pipe (which needs the input relay's close of the write end),
      then closes the stdin read end, and only then receives from the channel.
      Each relay, meanwhile, closes what it closes only after its copy ends,
      and the output relay closes the stdout read end before the writer. */
  ghost predicate ShutdownOrdered(t: seq<Event>) {
    && multiset(t)[ProcessWaited] == 1
    && Precedes(t, ProcessWaited, Close(Reader))
    && Precedes(t, Close(Reader), Drained)
    && Precedes(t, Close(StdinWrite), Drained)
    && Precedes(t, Drained, Close(StdinRead))
    && RelayOrdered(t)
    && (forall i, j :: 0 <= i < |t| && 0 <= j < |t| && t[i].Received? && t[j] == Close(StdinRead) ==> j < i)
  }

  /** The values in the channel once both relays are done: Spawn's, then the
      relays' in schedule order. */
  function Relayed(p: Process, env: WaitEnv, schedule: seq<bool>): seq<ErrVal> {
    p.errCh + FlatMap(StepValue, RelaySchedule(env, schedule))
  }

  lemma ShutdownShape(p: Process, env: WaitEnv, schedule: seq<bool>)
    requires |p.errCh| == 1
    ensures |Relayed(p, env, schedule)| == NumWaitErrors
    ensures Shutdown(p, env, schedule).0.trace ==
              ShutdownHistory(p.m.trace, FlatMap(StepEvents, RelaySchedule(env, schedule)), Relayed(p, env, schedule))
    ensures Shutdown(p, env, schedule).1 == WaitOwn(env) + Relayed(p, env, schedule)
    ensures Shutdown(p, env, schedule).2 == []
  {
    var steps := RelaySchedule(env, schedule);
    StepValuesLength(steps);
    var m1 := p.m.Emit(ProcessWaited).CloseRes(Reader);
    var relayed := RunRelays(m1, p.errCh, steps, NumWaitErrors);
    var m3 := relayed.0.Emit(Drained).CloseRes(StdinRead);
    var got := Collect(m3, relayed.1, NumWaitErrors);
    assert got.1 == relayed.1 && got.2 == [] by {
      assert got.1 + got.2 == relayed.1 && |got.1| == |relayed.1|;
    }
    assert m1.trace == p.m.trace + [ProcessWaited, Close(Reader)];
    assert m3.trace == relayed.0.trace + [Drained, Close(StdinRead)];
  }

  lemma HistoryWaitedOnce(t0: seq<Event>, relays: seq<Event>, vs: seq<ErrVal>)
    requires ProcessWaited !in t0 && ProcessWaited !in relays
    ensures multiset(ShutdownHistory(t0, relays, vs))[ProcessWaited] == 1
  {
    var c := FlatMap(ReceiveEvent, vs);
    ReceivesOnly(vs);
    assert ProcessWaited !in c by {
      forall i | 0 <= i < |c| ensures c[i] != ProcessWaited {}
    }
  }

  lemma HistoryPrecedes(t0: seq<Event>, relays: seq<Event>, vs: seq<ErrVal>)
    requires Close(StdinWrite) in relays
    ensures Precedes(ShutdownHistory(t0, relays, vs), ProcessWaited, Close(Reader))
    ensures Precedes(ShutdownHistory(t0, relays, vs), Close(Reader), Drained)
    ensures Precedes(ShutdownHistory(t0, relays, vs), Close(StdinWrite), Drained)
    ensures Precedes(ShutdownHistory(t0, relays, vs), Drained, Close(StdinRead))
  {
    var t := ShutdownHistory(t0, relays, vs);
    var n, k := |t0|, |relays|;
    assert t[n] == ProcessWaited && t[n + 1] == Close(Reader);
    assert t[n + 2 + k] == Drained && t[n + 3 + k] == Close(StdinRead);
    var w :| 0 <= w < k && relays[w] == Close(StdinWrite);
    assert t[n + 2 + w] == Close(StdinWrite);
  }

  lemma HistoryReceivesLast(t0: seq<Event>, relays: seq<Event>, vs: seq<ErrVal>)
    requires NoReceives(t0) && NoReceives(relays)
    requires Close(StdinRead) !in t0 && Close(StdinRead) !in relays
    ensures var t := ShutdownHistory(t0, relays, vs);
            forall i, j :: 0 <= i < |t| && 0 <= j < |t| && t[i].Received? && t[j] == Close(StdinRead) ==> j < i
  {
    var t := ShutdownHistory(t0, relays, vs);
    var c := FlatMap(ReceiveEvent, vs);
    ReceivesOnly(vs);
    var n, k := |t0|, |relays|;
    forall i, j | 0 <= i < |t| && 0 <= j < |t| && t[i].Received? && t[j] == Close(StdinRead)
      ensures j < i
    {
    }
  }

  lemma HistoryOrdered(t0: seq<Event>, relays: seq<Event>, vs: seq<ErrVal>)
    requires NoReceives(t0) && NoReceives(relays)
    requires ProcessWaited !in t0 && ProcessWaited !in relays
    requires Close(StdinRead) !in t0 && Close(StdinRead) !in relays
    requires Close(StdinWrite) in relays && RelayOrdered(relays)
    ensures ShutdownOrdered(ShutdownHistory(t0, relays, vs))
  {
    HistoryRelayOrder(t0, relays, vs);
    HistoryWaitedOnce(t0, relays, vs);
    HistoryPrecedes(t0, relays, vs);
    HistoryReceivesLast(t0, relays, vs);
  }

  lemma HistoryRelayOrder(t0: seq<Event>, relays: seq<Event>, vs: seq<ErrVal>)
    requires RelayOrdered(relays)
    ensures RelayOrdered(ShutdownHistory(t0, relays, vs))
  {
    var u, w := t0 + [ProcessWaited, Close(Reader)], [Drained, Close(StdinRead)] + FlatMap(ReceiveEvent, vs);
    assert ShutdownHistory(t0, relays, vs) == u + relays + w;
    PrecedesInside(u, relays, w, CopyFinished(InputRelay), Close(StdinWrite));
    PrecedesInside(u, relays, w, CopyFinished(OutputRelay), Close(StdoutRead));
    PrecedesInside(u, relays, w, Close(StdoutRead), Close(Writer));
    PrecedesInside(u, relays, w, CopyFinished(OutputRelay), Close(Writer));
  }

  lemma HistoryCloses(t0: seq<Event>, relays: seq<Event>, vs: seq<ErrVal>, x: Resource)
    ensures multiset(ShutdownHistory(t0, relays, vs))[Close(x)] ==
              multiset(t0)[Close(x)] + multiset(relays)[Close(x)] + (if x == Reader || x == StdinRead then 1 else 0)
  {
    var c := FlatMap(ReceiveEvent, vs);
    ReceivesOnly(vs);
    assert Close(x) !in c by {
      forall i | 0 <= i < |c| ensures c[i] != Close(x) {}
    }
  }

  lemma HistoryTraffic(t0: seq<Event>, relays: seq<Event>, vs: seq<ErrVal>)
    requires NoReceives(t0) && NoReceives(relays)
    ensures SentValues(ShutdownHistory(t0, relays, vs)) == SentValues(t0) + SentValues(relays)
    ensures ReceivedValues(ShutdownHistory(t0, relays, vs)) == vs
  {
    var a, b, c := [ProcessWaited, Close(Reader)], [Drained, Close(StdinRead)], FlatMap(ReceiveEvent, vs);
    assert ShutdownHistory(t0, relays, vs) == t0 + a + relays + b + c;
    ReceivesOnly(vs);
    QuietPair(ProcessWaited, Close(Reader));
    QuietPair(Drained, Close(StdinRead));
    FlatMapFive(SentOf, t0, a, relays, b, c);
    assert SentValues(t0 + a + relays + b + c) == SentValues(t0) + SentValues(relays);
    NoReceivesValues(t0);
    NoReceivesValues(relays);
    FlatMapFive(ReceivedOf, t0, a, relays, b, c);
  }

  /** Two events that are neither sends nor receives carry no values. */
  lemma QuietPair(x: Event, y: Event)
    requires !x.Sent? && !x.Received? && !y.Sent? && !y.Received?
    ensures SentValues([x, y]) == [] && ReceivedValues([x, y]) == []
  {
    FlatMapPair(SentOf, x, y);
    FlatMapPair(ReceivedOf, x, y);
  }

  /** Every resource ends closed, each by exactly one close. */
  lemma ShutdownCloses(p: Process, env: WaitEnv, schedule: seq<bool>, x: Resource)
    requires Fresh(p)
    ensures ClosesOf(Shutdown(p, env, schedule).0, x) == 1
  {
    ShutdownShape(p, env, schedule);
    HistoryCloses(p.m.trace, FlatMap(StepEvents, RelaySchedule(env, schedule)), Relayed(p, env, schedule), x);
    RelayCloses(env, schedule, x);
    assert ClosesOf(p.m, x) == (if x == StdoutWrite then 1 else 0);
    ResourceCases(x);
  }

  lemma ShutdownStatus(p: Process, env: WaitEnv, schedule: seq<bool>, x: Resource)
    requires Fresh(p)
    ensures x in Shutdown(p, env, schedule).0.res && Shutdown(p, env, schedule).0.res[x] == Closed
  {
    var steps := RelaySchedule(env, schedule);
    StepValuesLength(steps);
    var m1 := p.m.Emit(ProcessWaited).CloseRes(Reader);
    var relayed := RunRelays(m1, p.errCh, steps, NumWaitErrors);
    RelayClosedBy(env, schedule, x);
    assert x in p.m.res;
    ResourceCases(x);
  }

  lemma ShutdownFinishes(p: Process, env: WaitEnv, schedule: seq<bool>)
    requires Fresh(p)
    ensures AllClosedOnce(Shutdown(p, env, schedule).0)
    ensures ShutdownOrdered(Shutdown(p, env, schedule).0.trace)
    ensures SentValues(Shutdown(p, env, schedule).0.trace) == Relayed(p, env, schedule)
    ensures ReceivedValues(Shutdown(p, env, schedule).0.trace) == Relayed(p, env, schedule)
    ensures |Relayed(p, env, schedule)| == NumWaitErrors
  {
    var relays := FlatMap(StepEvents, RelaySchedule(env, schedule));
    ShutdownShape(p, env, schedule);
    forall x: Resource
      ensures x in Shutdown(p, env, schedule).0.res
      ensures Shutdown(p, env, schedule).0.res[x] == Closed
      ensures ClosesOf(Shutdown(p, env, schedule).0, x) == 1
    {
      ShutdownStatus(p, env, schedule, x);
      ShutdownCloses(p, env, schedule, x);
    }
    ShutdownInOrder(p, env, schedule);
    RelayQuiet(env, schedule);
    HistoryTraffic(p.m.trace, relays, Relayed(p, env, schedule));
    RelaySends(RelaySchedule(env, schedule));
  }

  /** On a freshly spawned child, the shutdown's steps come in Wait's order
      and each relay's in its own. */
  lemma ShutdownInOrder(p: Process, env: WaitEnv, schedule: seq<bool>)
    requires Fresh(p)
    ensures ShutdownOrdered(Shutdown(p, env, schedule).0.trace)
  {
    var relays := FlatMap(StepEvents, RelaySchedule(env, schedule));
    ShutdownShape(p, env, schedule);
    RelayQuiet(env, schedule);
    RelayOrder(env, schedule);
    assert ClosesOf(p.m, StdinRead) == 0;
    HistoryOrdered(p.m.trace, relays, Relayed(p, env, schedule));
  }

  lemma FreshFinishes(p: Process, env: WaitEnv, schedule: seq<bool>)
    requires |p.errCh| == 1
    ensures Fresh(p) ==> AllClosedOnce(Shutdown(p, env, schedule).0)
    ensures Fresh(p) ==> ShutdownOrdered(Shutdown(p, env, schedule).0.trace)
    ensures Fresh(p) ==> SentValues(Shutdown(p, env, schedule).0.trace) == ReceivedValues(Shutdown(p, env, schedule).0.trace)
    ensures Fresh(p) ==> |ReceivedValues(Shutdown(p, env, schedule).0.trace)| == NumWaitErrors
  {
    if Fresh(p) {
      ShutdownFinishes(p, env, schedule);
    }
  }

  lemma ReportedClean(spawnErr: ErrVal, env: WaitEnv)
    ensures AllNil(Reported(spawnErr, env)) <==> spawnErr == Nil && WaitClean(env)
  {
    var r := Reported(spawnErr, env);
    assert r == [env.processWait, env.readerClose, env.drain, env.stdinReadClose, spawnErr,
                 env.inputCopy, env.stdinWriteClose, env.outputCopy, env.stdoutReadClose, env.writerClose];
    if AllNil(r) {
      assert r[0] == Nil && r[1] == Nil && r[2] == Nil && r[3] == Nil && r[4] == Nil;
      assert r[5] == Nil && r[6] == Nil && r[7] == Nil && r[8] == Nil && r[9] == Nil;
    }
  }

  /** The values Wait appends are those of `Reported`, in some order. */
  lemma PermuteTail(front: seq<ErrVal>, fs: seq<ErrVal>, a: seq<ErrVal>, b: seq<ErrVal>)
    requires multiset(fs) == multiset(a) + multiset(b)
    ensures multiset(front + fs) == multiset(front + a + b)
  {
  }

  lemma SlotsReported(e: ErrVal, env: WaitEnv, schedule: seq<bool>)
    ensures multiset(WaitOwn(env) + [e] + FlatMap(StepValue, RelaySchedule(env, schedule))) == multiset(Reported(e, env))
  {
    RelayValues(env, schedule);
    PermuteTail(WaitOwn(env) + [e], FlatMap(StepValue, RelaySchedule(env, schedule)),
                [env.inputCopy, env.stdinWriteClose], [env.outputCopy, env.stdoutReadClose, env.writerClose]);
  }

  /** Whether Wait reports an error, which errors, and that its own steps'
      errors come first, then Spawn's. */
  lemma ShutdownResult(p: Process, env: WaitEnv, schedule: seq<bool>)
    requires |p.errCh| == 1
    ensures Aggregate(Shutdown(p, env, schedule).1).NoError? <==> p.errCh[0] == Nil && WaitClean(env)
    ensures Aggregate(Shutdown(p, env, schedule).1).Composite? ==>
              multiset(Aggregate(Shutdown(p, env, schedule).1).errs) == multiset(NonNil(Reported(p.errCh[0], env)))
    ensures Aggregate(Shutdown(p, env, schedule).1).Composite? ==>
              NonNil(WaitOwn(env) + p.errCh) <= Aggregate(Shutdown(p, env, schedule).1).errs
  {
    var e, fs := p.errCh[0], FlatMap(StepValue, RelaySchedule(env, schedule));
    assert p.errCh == [e];
    SlotsReported(e, env, schedule);
    ResultOfSlots(e, env, fs);
  }

  lemma ResultOfSlots(e: ErrVal, env: WaitEnv, fs: seq<ErrVal>)
    requires multiset(WaitOwn(env) + [e] + fs) == multiset(Reported(e, env))
    ensures Aggregate(WaitOwn(env) + [e] + fs).NoError? <==> e == Nil && WaitClean(env)
    ensures Aggregate(WaitOwn(env) + [e] + fs).Composite? ==>
              multiset(Aggregate(WaitOwn(env) + [e] + fs).errs) == multiset(NonNil(Reported(e, env)))
    ensures Aggregate(WaitOwn(env) + [e] + fs).Composite? ==>
              NonNil(WaitOwn(env) + [e]) <= Aggregate(WaitOwn(env) + [e] + fs).errs
  {
    AggregatePermutation(WaitOwn(env) + [e] + fs, Reported(e, env));
    ReportedClean(e, env);
    NonNilAppend(WaitOwn(env) + [e], fs);
  }

  /** The state after the once-guarded function has run: the channel has been
      emptied, every resource is closed exactly once, the steps happened in
      Wait's order, and exactly `NumWaitErrors` values went through the
      channel, each received once. */
  ghost predicate Finished(p: Process) {
    && p.once.Done?
    && p.errCh == []
    && AllClosedOnce(p.m)
    && ShutdownOrdered(p.m.trace)
    && SentValues(p.m.trace) == ReceivedValues(p.m.trace)
    && |ReceivedValues(p.m.trace)| == NumWaitErrors
  }

  ghost predicate Valid(p: Process) {
    Fresh(p) || Finished(p)
  }

  /** What Wait itself relies on: either the guard has fired, or Spawn's one
      value is in the channel. */
  predicate Waitable(p: Process) {
    p.once.Done? || |p.errCh| == 1
  }

  /** Wait: the first call runs the shutdown and freezes its result; every
      later call returns that result and does nothing. No step is skipped
      because an earlier one failed. */
  function Wait(p: Process, env: WaitEnv, schedule: seq<bool>): (r: (Process, WaitResult))
    requires Waitable(p)
    ensures r.0.once == Done(r.1)
    ensures p.once.Pending? ==> r.0.errCh == []
    ensures Valid(p) ==> Finished(r.0)
    ensures p.once.Done? ==> r == (p, p.once.result)
    ensures p.once.Pending? ==> (r.1.NoError? <==> p.errCh[0] == Nil && WaitClean(env))
    ensures p.once.Pending? && r.1.Composite? ==>
              multiset(r.1.errs) == multiset(NonNil(Reported(p.errCh[0], env)))
    ensures p.once.Pending? && r.1.Composite? ==> NonNil(WaitOwn(env) + p.errCh) <= r.1.errs
  {
    if p.once.Done? then (p, p.once.result)
    else
      var s := Shutdown(p, env, schedule);
      ShutdownShape(p, env, schedule);
      ShutdownResult(p, env, schedule);
      FreshFinishes(p, env, schedule);
      var result := Aggregate(s.1);
      (Process(s.0, s.2, Done(result)), result)
  }

  /** The scheduler decides only the order of the relays' errors in the
      composite: whether Wait fails, and with which errors, does not depend
      on it. */
  lemma ScheduleIrrelevant(p: Process, env: WaitEnv, s1: seq<bool>, s2: seq<bool>)
    requires p.once.Pending? && |p.errCh| == 1
    ensures Wait(p, env, s1).1.NoError? <==> Wait(p, env, s2).1.NoError?
    ensures Wait(p, env, s1).1.Composite? ==>
              multiset(Wait(p, env, s1).1.errs) == multiset(Wait(p, env, s2).1.errs)
  {
    var r1, r2 := Wait(p, env, s1).1, Wait(p, env, s2).1;
    SameReport(r1, r2, p.errCh[0] == Nil && WaitClean(env), multiset(NonNil(Reported(p.errCh[0], env))));
  }

  /** Two results that each match one report match each other. */
  lemma SameReport(r1: WaitResult, r2: WaitResult, clean: bool, errs: multiset<ErrVal>)
    requires (r1.NoError? <==> clean) && (r2.NoError? <==> clean)
    requires r1.Composite? ==> multiset(r1.errs) == errs
    requires r2.Composite? ==> multiset(r2.errs) == errs
    ensures r1.NoError? <==> r2.NoError?
    ensures r1.Composite? ==> multiset(r1.errs) == multiset(r2.errs)
  {
  }

  /** Each relay's errors reach the channel in the order the relay sent them,
      after Spawn's. */
  lemma RelaysKeepOrder(p: Process, env: WaitEnv, schedule: seq<bool>)
    requires Fresh(p)
    ensures Relayed(p, env, schedule)[0] == p.errCh[0]
    ensures Subseq([env.inputCopy, env.stdinWriteClose], Relayed(p, env, schedule))
    ensures Subseq([env.outputCopy, env.stdoutReadClose, env.writerClose], Relayed(p, env, schedule))
  {
    var a, b := InputRelaySteps(env), OutputRelaySteps(env);
    var steps := RelaySchedule(env, schedule);
    MergeKeepsOrder(a, b, schedule);
    InputRelayDoes(env);
    OutputRelayDoes(env);
    SubseqFlatMap(StepValue, a, steps);
    SubseqFlatMap(StepValue, b, steps);
    SubseqSkip(p.errCh, FlatMap(StepValue, a), FlatMap(StepValue, steps));
    SubseqSkip(p.errCh, FlatMap(StepValue, b), FlatMap(StepValue, steps));
  }

  /** One call of Wait, with the outcomes its first run would see. */
  datatype WaitCall = WaitCall(env: WaitEnv, schedule: seq<bool>)

  /** Several calls of Wait on one process, in order; the background call
      Spawn arms is one of them. */
  function WaitAll(p: Process, calls: seq<WaitCall>): (r: (Process, seq<WaitResult>))
    requires Waitable(p)
    ensures |r.1| == |calls|
    decreases |calls|
  {
    if |calls| == 0 then (p, [])
    else
      var first := Wait(p, calls[0].env, calls[0].schedule);
      var rest := WaitAll(first.0, calls[1..]);
      (rest.0, [first.1] + rest.1)
  }

  /** Once the guard has fired, Wait changes nothing and repeats the result. */
  lemma {:induction false} WaitAfterDone(q: Process, calls: seq<WaitCall>)
    requires q.once.Done?
    ensures WaitAll(q, calls).0 == q
    ensures forall i :: 0 <= i < |calls| ==> WaitAll(q, calls).1[i] == q.once.result
    decreases |calls|
  {
    if |calls| > 0 {
      WaitAfterDone(q, calls[1..]);
    }
  }

  /** However many times Wait is called, the shutdown runs once: every call
      returns the first call's result, and the process is waited for once. */
  lemma WaitOnce(p: Process, calls: seq<WaitCall>)
    requires Waitable(p) && |calls| > 0
    ensures WaitAll(p, calls).0 == Wait(p, calls[0].env, calls[0].schedule).0
    ensures forall i :: 0 <= i < |calls| ==> WaitAll(p, calls).1[i] == WaitAll(p, calls).1[0]
    ensures Valid(p) ==> multiset(WaitAll(p, calls).0.m.trace)[ProcessWaited] == 1
  {
    WaitAllFirst(p, calls);
    WaitAfterDone(Wait(p, calls[0].env, calls[0].schedule).0, calls[1..]);
    if Valid(p) {
      FinishedWaitedOnce(Wait(p, calls[0].env, calls[0].schedule).0);
    }
  }

  /** The first call of several, and what the later calls start from. */
  lemma WaitAllFirst(p: Process, calls: seq<WaitCall>)
    requires Waitable(p) && |calls| > 0
    ensures var first := Wait(p, calls[0].env, calls[0].schedule);
            first.0.once.Done? && first.0.once.result == first.1 &&
            WaitAll(p, calls) == (WaitAll(first.0, calls[1..]).0, [first.1] + WaitAll(first.0, calls[1..]).1)
    ensures Valid(p) ==> Finished(Wait(p, calls[0].env, calls[0].schedule).0)
  {
  }

  lemma FinishedWaitedOnce(q: Process)
    requires Finished(q)
    ensures multiset(q.m.trace)[ProcessWaited] == 1
  {
  }
}
