/** The resources a spawned child owns, the events of its life, and the
    launch sequence (path lookup, two pipes, process start) that both
    versions of `childproc.Spawn` share. */
module Lifecycle {
  import opened Errors
  import opened Interleave

  /** The six closable resources of one child. `StdinRead` is the child's fd 0
      (`childStdinOut`), `StdinWrite` the end the input relay writes
      (`childStdinIn`), `StdoutRead` the end the output relay reads
      (`childStdoutOut`) and `StdoutWrite` the child's fd 1 and 2
      (`childStdoutIn`); `Reader` and `Writer` are the caller's endpoints. */
  datatype Resource = StdinRead | StdinWrite | StdoutRead | StdoutWrite | Reader | Writer

  /** Every resource is one of the six. */
  lemma ResourceCases(x: Resource)
    ensures x == StdinRead || x == StdinWrite || x == StdoutRead || x == StdoutWrite || x == Reader || x == Writer
  {
    assert x.StdinRead? || x.StdinWrite? || x.StdoutRead? || x.StdoutWrite? || x.Reader? || x.Writer?;
  }

  datatype Pipe = StdinPipe | StdoutPipe

  function ReadEnd(p: Pipe): Resource {
    if p == StdinPipe then StdinRead else StdoutRead
  }

  function WriteEnd(p: Pipe): Resource {
    if p == StdinPipe then StdinWrite else StdoutWrite
  }

  predicate IsPipeEnd(x: Resource) {
    x != Reader && x != Writer
  }

  function PipeOf(x: Resource): (p: Pipe)
    requires IsPipeEnd(x)
    ensures x == ReadEnd(p) || x == WriteEnd(p)
  {
    if x == StdinRead || x == StdinWrite then StdinPipe else StdoutPipe
  }

  datatype Status = Open | Closed

  /** The once guard of Wait, with the error value it froze. */
  datatype Once = Pending | Done(result: WaitResult)

  /** Who sends into a channel: Spawn itself, or one of the two relays. */
  datatype Actor = Spawner | InputRelay | OutputRelay

  datatype Event =
    | LookPath(name: string)
    | PipeCreated(pipe: Pipe)
    | StartProcess(path: string, argv: seq<string>, fds: seq<Resource>)
    | Close(res: Resource)
    | CopyFinished(relay: Actor)
    | ProcessWaited
    | Drained
      // a send into the shared buffered channel, and a receive from it
    | Sent(sender: Actor, err: ErrVal)
    | Received(err: ErrVal)
      // a rendezvous on a relay's own unbuffered channel
    | Handoff(sender: Actor, err: ErrVal)

  /** The status of every resource that exists so far, and what happened. */
  datatype Machine = Machine(res: map<Resource, Status>, trace: seq<Event>) {

    function Emit(e: Event): Machine {
      this.(trace := trace + [e])
    }

    function CloseRes(x: Resource): Machine {
      Machine(res[x := Closed], trace + [Close(x)])
    }

    function CreatePipe(p: Pipe): Machine {
      Machine(res[ReadEnd(p) := Open][WriteEnd(p) := Open], trace + [PipeCreated(p)])
    }
  }

  /** A fixed run of events on a machine: a close closes its resource, any
      other event is only recorded. */
  function Play(m: Machine, evs: seq<Event>): (r: Machine)
    ensures r.trace == m.trace + evs
    ensures forall x :: x in r.res <==> x in m.res || Close(x) in evs
    ensures forall x :: x in r.res ==> r.res[x] == (if Close(x) in evs then Closed else m.res[x])
    decreases |evs|
  {
    if |evs| == 0 then m
    else
      var m1 := if evs[0].Close? then m.CloseRes(evs[0].res) else m.Emit(evs[0]);
      assert forall e :: e in evs <==> e == evs[0] || e in evs[1..];
      Play(m1, evs[1..])
  }

  /** Before Spawn only the caller's reader and writer exist, both open. */
  function Initial(): Machine {
    Machine(map[Reader := Open, Writer := Open], [])
  }

  /** How many times `x` has been closed. */
  function ClosesOf(m: Machine, x: Resource): nat {
    multiset(m.trace)[Close(x)]
  }

  /** The child's fd table: stdin on the stdin pipe, stdout and stderr both on
      the write end of the one output pipe. */
  const ChildFds: seq<Resource> := [StdinRead, StdoutWrite, StdoutWrite]

  /** Outcomes of the operating-system calls Spawn makes, as opaque errors. */
  datatype SpawnEnv = SpawnEnv(
    path: string,            // what exec.LookPath resolves to
    lookup: ErrVal,          // exec.LookPath
    stdinPipe: ErrVal,       // first os.Pipe
    stdoutPipe: ErrVal,      // second os.Pipe
    start: ErrVal,           // os.StartProcess
    stdoutWriteClose: ErrVal // Spawn's own close of the child's stdout end
  )

  /** Outcomes of the calls made after Spawn returns, as opaque errors: the
      process wait, the closes, the drain of the stdin pipe and the two relay
      copies. */
  datatype WaitEnv = WaitEnv(
    processWait: ErrVal,     // process.Wait
    readerClose: ErrVal,     // closing the caller's reader
    drain: ErrVal,           // copying the stdin pipe's read end to a discard sink
    stdinReadClose: ErrVal,  // closing the stdin pipe's read end
    inputCopy: ErrVal,       // the input relay's io.Copy
    stdinWriteClose: ErrVal, // the input relay closing the stdin pipe's write end
    outputCopy: ErrVal,      // the output relay's io.Copy
    stdoutReadClose: ErrVal, // the output relay closing the stdout pipe's read end
    writerClose: ErrVal      // the output relay closing the caller's writer
  )

  predicate LaunchClean(env: SpawnEnv) {
    env.lookup == Nil && env.stdinPipe == Nil && env.stdoutPipe == Nil && env.start == Nil
  }

  /** The error Spawn returns, wrapping the failed call's error. */
  datatype SpawnError = LookupFailed(cause: ErrVal) | PipeFailed(cause: ErrVal) | StartFailed(cause: ErrVal)

  datatype LaunchResult = LaunchFailed(err: SpawnError, m: Machine) | Launched(m: Machine)

  /** The caller's reader and writer are open and have never been closed. */
  ghost predicate Untouched(m: Machine) {
    && Reader in m.res && m.res[Reader] == Open && ClosesOf(m, Reader) == 0
    && Writer in m.res && m.res[Writer] == Open && ClosesOf(m, Writer) == 0
  }

  /** Every pipe end exists exactly when its pipe was created; created ends
      were closed exactly once and the others were never touched. */
  ghost predicate PipesReleased(m: Machine) {
    forall x | IsPipeEnd(x) ::
      && (x in m.res <==> PipeCreated(PipeOf(x)) in m.trace)
      && (x in m.res ==> m.res[x] == Closed && ClosesOf(m, x) == 1)
      && (x !in m.res ==> ClosesOf(m, x) == 0)
  }

  /** Every resource exists, is open and has never been closed. */
  ghost predicate AllOpen(m: Machine) {
    forall x: Resource :: x in m.res && m.res[x] == Open && ClosesOf(m, x) == 0
  }

  /** Every resource exists, is closed, and was closed exactly once. */
  ghost predicate AllClosedOnce(m: Machine) {
    forall x: Resource :: x in m.res && m.res[x] == Closed && ClosesOf(m, x) == 1
  }

  /** The trace holds only what a launch does: lookups, pipe creations,
      start attempts and closes. */
  predicate LaunchEventsOnly(t: seq<Event>) {
    forall i :: 0 <= i < |t| ==> t[i].LookPath? || t[i].PipeCreated? || t[i].StartProcess? || t[i].Close?
  }

  // The machines a launch can end in, one per exit of Launch.

  function AfterLookup(name: string): Machine {
    Initial().Emit(LookPath(name))
  }

  function AfterStdinPipe(name: string): Machine {
    AfterLookup(name).CreatePipe(StdinPipe)
  }

  function AfterStart(name: string, path: string, argv: seq<string>): Machine {
    AfterStdinPipe(name).CreatePipe(StdoutPipe).Emit(StartProcess(path, argv, ChildFds))
  }

  /** Closing `x` adds one close of `x` and nothing else. */
  lemma CloseCounts(m: Machine, x: Resource, y: Resource)
    ensures ClosesOf(m.CloseRes(x), y) == ClosesOf(m, y) + (if x == y then 1 else 0)
  {
    assert m.CloseRes(x).trace == m.trace + [Close(x)];
  }

  /** Recording any other event closes nothing. */
  lemma EmitCounts(m: Machine, e: Event, y: Resource)
    requires !e.Close?
    ensures ClosesOf(m.Emit(e), y) == ClosesOf(m, y)
  {
    assert m.Emit(e).trace == m.trace + [e];
  }

  lemma AfterLookupFacts(name: string)
    ensures Untouched(AfterLookup(name))
    ensures PipesReleased(AfterLookup(name))
    ensures LaunchEventsOnly(AfterLookup(name).trace)
    ensures AfterLookup(name).trace == [LookPath(name)]
    ensures forall e :: e in AfterLookup(name).trace ==> !e.StartProcess?
  {
    var m := AfterLookup(name);
    assert m.trace == [LookPath(name)];
    forall x | IsPipeEnd(x)
      ensures x !in m.res && PipeCreated(PipeOf(x)) !in m.trace && ClosesOf(m, x) == 0
    {
    }
  }

  lemma StartedFacts(name: string, path: string, argv: seq<string>)
    ensures Untouched(AfterStart(name, path, argv))
    ensures AllOpen(AfterStart(name, path, argv))
  {
    var m0 := AfterLookup(name);
    var m1 := m0.CreatePipe(StdinPipe);
    var m2 := m1.CreatePipe(StdoutPipe);
    var m := AfterStart(name, path, argv);
    forall x: Resource
      ensures x in m.res && m.res[x] == Open && ClosesOf(m, x) == 0
    {
      ResourceCases(x);
      assert m0.trace == [LookPath(name)];
      EmitCounts(m0, PipeCreated(StdinPipe), x);
      EmitCounts(m1, PipeCreated(StdoutPipe), x);
      EmitCounts(m2, StartProcess(path, argv, ChildFds), x);
    }
  }

  lemma StartedTrace(name: string, path: string, argv: seq<string>)
    ensures LaunchEventsOnly(AfterStart(name, path, argv).trace)
    ensures AfterStart(name, path, argv).trace[1] == PipeCreated(StdinPipe)
    ensures AfterStart(name, path, argv).trace[2] == PipeCreated(StdoutPipe)
    ensures |AfterStart(name, path, argv).trace| == 4
    ensures AfterStart(name, path, argv).trace[0] == LookPath(name)
    ensures AfterStart(name, path, argv).trace[3] == StartProcess(path, argv, ChildFds)
  {
    assert AfterStart(name, path, argv).trace ==
           [LookPath(name), PipeCreated(StdinPipe), PipeCreated(StdoutPipe), StartProcess(path, argv, ChildFds)];
  }

  function AfterStdoutPipeFailure(name: string): Machine {
    AfterStdinPipe(name).CloseRes(StdinRead).CloseRes(StdinWrite)
  }

  lemma StdoutPipeFailureCloses(name: string, y: Resource)
    ensures ClosesOf(AfterStdoutPipeFailure(name), y) == (if y == StdinRead || y == StdinWrite then 1 else 0)
  {
    var m0 := AfterStdinPipe(name);
    assert m0.trace == [LookPath(name), PipeCreated(StdinPipe)];
    assert Close(y) !in m0.trace;
    CloseCounts(m0, StdinRead, y);
    CloseCounts(m0.CloseRes(StdinRead), StdinWrite, y);
  }

  lemma StdoutPipeFailureTrace(name: string)
    ensures AfterStdoutPipeFailure(name).trace ==
              [LookPath(name), PipeCreated(StdinPipe), Close(StdinRead), Close(StdinWrite)]
    ensures LaunchEventsOnly(AfterStdoutPipeFailure(name).trace)
    ensures forall e :: e in AfterStdoutPipeFailure(name).trace ==> !e.StartProcess?
  {
  }

  lemma StdoutPipeFailureStatus(name: string, x: Resource)
    ensures x in AfterStdoutPipeFailure(name).res <==> !IsPipeEnd(x) || x == StdinRead || x == StdinWrite
    ensures x in AfterStdoutPipeFailure(name).res ==>
              AfterStdoutPipeFailure(name).res[x] == (if IsPipeEnd(x) then Closed else Open)
  {
    ResourceCases(x);
  }

  lemma StdoutPipeFailureFacts(name: string)
    ensures Untouched(AfterStdoutPipeFailure(name))
    ensures PipesReleased(AfterStdoutPipeFailure(name))
  {
    var m := AfterStdoutPipeFailure(name);
    StdoutPipeFailureTrace(name);
    StdoutPipeFailureCloses(name, Reader);
    StdoutPipeFailureCloses(name, Writer);
    StdoutPipeFailureStatus(name, Reader);
    StdoutPipeFailureStatus(name, Writer);
    forall x | IsPipeEnd(x)
      ensures (x in m.res <==> PipeCreated(PipeOf(x)) in m.trace)
      ensures (x in m.res ==> m.res[x] == Closed && ClosesOf(m, x) == 1)
      ensures (x !in m.res ==> ClosesOf(m, x) == 0)
    {
      StdoutPipeFailureCloses(name, x);
      StdoutPipeFailureStatus(name, x);
      if x == StdinRead || x == StdinWrite {
        assert m.trace[1] == PipeCreated(PipeOf(x));
      } else {
        assert PipeOf(x) == StdoutPipe;
      }
    }
  }

  function AfterStartFailure(name: string, path: string, argv: seq<string>): Machine {
    AfterStart(name, path, argv).CloseRes(StdoutRead).CloseRes(StdoutWrite)
                                .CloseRes(StdinRead).CloseRes(StdinWrite)
  }

  lemma StartFailureCloses(name: string, path: string, argv: seq<string>, y: Resource)
    ensures ClosesOf(AfterStartFailure(name, path, argv), y) == (if IsPipeEnd(y) then 1 else 0)
  {
    var m0 := AfterStart(name, path, argv);
    StartedFacts(name, path, argv);
    var m1 := m0.CloseRes(StdoutRead);
    var m2 := m1.CloseRes(StdoutWrite);
    var m3 := m2.CloseRes(StdinRead);
    CloseCounts(m0, StdoutRead, y);
    CloseCounts(m1, StdoutWrite, y);
    CloseCounts(m2, StdinRead, y);
    CloseCounts(m3, StdinWrite, y);
  }

  lemma LaunchEventsAppend(t: seq<Event>, u: seq<Event>)
    requires LaunchEventsOnly(t) && LaunchEventsOnly(u)
    ensures LaunchEventsOnly(t + u)
  {
    forall i | 0 <= i < |t + u|
      ensures (t + u)[i].LookPath? || (t + u)[i].PipeCreated? || (t + u)[i].StartProcess? || (t + u)[i].Close?
    {
      if i >= |t| {
        assert (t + u)[i] == u[i - |t|];
      }
    }
  }

  lemma StartFailureStatus(name: string, path: string, argv: seq<string>, x: Resource)
    ensures x in AfterStartFailure(name, path, argv).res
    ensures AfterStartFailure(name, path, argv).res[x] == (if IsPipeEnd(x) then Closed else Open)
  {
    ResourceCases(x);
  }

  lemma StartFailureFacts(name: string, path: string, argv: seq<string>)
    ensures Untouched(AfterStartFailure(name, path, argv))
    ensures PipesReleased(AfterStartFailure(name, path, argv))
  {
    StartFailureUntouched(name, path, argv);
    StartFailureReleased(name, path, argv);
  }

  lemma StartFailureUntouched(name: string, path: string, argv: seq<string>)
    ensures Untouched(AfterStartFailure(name, path, argv))
  {
    StartFailureCloses(name, path, argv, Reader);
    StartFailureCloses(name, path, argv, Writer);
    StartFailureStatus(name, path, argv, Reader);
    StartFailureStatus(name, path, argv, Writer);
  }

  lemma StartFailureCreated(name: string, path: string, argv: seq<string>, x: Resource)
    requires IsPipeEnd(x)
    ensures PipeCreated(PipeOf(x)) in AfterStartFailure(name, path, argv).trace
  {
    StartedTrace(name, path, argv);
    var t := AfterStartFailure(name, path, argv).trace;
    assert t[1] == PipeCreated(StdinPipe) && t[2] == PipeCreated(StdoutPipe);
  }

  lemma StartFailureReleased(name: string, path: string, argv: seq<string>)
    ensures PipesReleased(AfterStartFailure(name, path, argv))
  {
    var m := AfterStartFailure(name, path, argv);
    forall x | IsPipeEnd(x)
      ensures x in m.res && PipeCreated(PipeOf(x)) in m.trace
      ensures m.res[x] == Closed && ClosesOf(m, x) == 1
    {
      StartFailureCreated(name, path, argv, x);
      StartFailureCloses(name, path, argv, x);
      StartFailureStatus(name, path, argv, x);
    }
  }

  lemma StartFailureTrace(name: string, path: string, argv: seq<string>)
    ensures LaunchEventsOnly(AfterStartFailure(name, path, argv).trace)
    ensures AfterStartFailure(name, path, argv).trace[0] == LookPath(name)
    ensures AfterStartFailure(name, path, argv).trace[3] == StartProcess(path, argv, ChildFds)
  {
    var closes := [Close(StdoutRead), Close(StdoutWrite), Close(StdinRead), Close(StdinWrite)];
    StartedTrace(name, path, argv);
    assert AfterStartFailure(name, path, argv).trace == AfterStart(name, path, argv).trace + closes;
    LaunchEventsAppend(AfterStart(name, path, argv).trace, closes);
  }

  /** Lookup, the two pipes and the start of the child, with the deferred
      cleanup that runs when a later step fails: the deferred closes run in
      reverse order of registration, each closing both ends of one pipe, and
      their own errors are dropped. `argv` is what the caller passes on to
      os.StartProcess. */
  function Launch(name: string, argv: seq<string>, env: SpawnEnv): (r: LaunchResult)
    // failure exactly when some call failed, reporting the first one
    ensures r.LaunchFailed? <==> !LaunchClean(env)
    ensures env.lookup != Nil ==> r == LaunchFailed(LookupFailed(env.lookup), r.m)
    ensures env.lookup == Nil && env.stdinPipe != Nil ==>
              r == LaunchFailed(PipeFailed(env.stdinPipe), r.m)
    ensures env.lookup == Nil && env.stdinPipe == Nil && env.stdoutPipe != Nil ==>
              r == LaunchFailed(PipeFailed(env.stdoutPipe), r.m)
    ensures env.lookup == Nil && env.stdinPipe == Nil && env.stdoutPipe == Nil && env.start != Nil ==>
              r == LaunchFailed(StartFailed(env.start), r.m)
    ensures r.LaunchFailed? ==> r.err.cause != Nil
    // the caller's endpoints are never touched by the launch
    ensures Untouched(r.m)
    ensures |r.m.trace| > 0 && r.m.trace[0] == LookPath(name)
    ensures LaunchEventsOnly(r.m.trace)
    // a failure releases exactly the pipe ends that were created
    ensures r.LaunchFailed? ==> PipesReleased(r.m)
    // the child is started only once both pipes exist, with argv and ChildFds
    ensures StartProcess(env.path, argv, ChildFds) in r.m.trace <==>
              env.lookup == Nil && env.stdinPipe == Nil && env.stdoutPipe == Nil
    ensures r.Launched? ==> AllOpen(r.m)
  {
    if env.lookup != Nil then
      AfterLookupFacts(name);
      LaunchFailed(LookupFailed(env.lookup), AfterLookup(name))
    else if env.stdinPipe != Nil then
      AfterLookupFacts(name);
      LaunchFailed(PipeFailed(env.stdinPipe), AfterLookup(name))
    else if env.stdoutPipe != Nil then
      StdoutPipeFailureFacts(name);
      StdoutPipeFailureTrace(name);
      LaunchFailed(PipeFailed(env.stdoutPipe), AfterStdoutPipeFailure(name))
    else if env.start != Nil then
      StartFailureFacts(name, env.path, argv);
      StartFailureTrace(name, env.path, argv);
      LaunchFailed(StartFailed(env.start), AfterStartFailure(name, env.path, argv))
    else
      StartedFacts(name, env.path, argv);
      StartedTrace(name, env.path, argv);
      Launched(AfterStart(name, env.path, argv))
  }

  // Channel traffic and ordering, read off a trace.

  function SentOf(e: Event): seq<ErrVal> {
    if e.Sent? then [e.err] else []
  }

  function ReceivedOf(e: Event): seq<ErrVal> {
    if e.Received? then [e.err] else []
  }

  /** The values sent into the shared channel, in sending order. */
  function SentValues(t: seq<Event>): seq<ErrVal> {
    FlatMap(SentOf, t)
  }

  /** The values received from the shared channel, in receiving order. */
  function ReceivedValues(t: seq<Event>): seq<ErrVal> {
    FlatMap(ReceivedOf, t)
  }

  predicate NoReceives(t: seq<Event>) {
    forall i :: 0 <= i < |t| ==> !t[i].Received?
  }

  /** `a` happens somewhere before `b`. */
  ghost predicate Precedes(t: seq<Event>, a: Event, b: Event) {
    exists i, j :: 0 <= i < j < |t| && t[i] == a && t[j] == b
  }

  /** Each relay's own order: a relay closes only after its copy has
      finished, and the output relay closes the stdout read end before the
      caller's writer. */
  ghost predicate RelayOrdered(t: seq<Event>) {
    && Precedes(t, CopyFinished(InputRelay), Close(StdinWrite))
    && Precedes(t, CopyFinished(OutputRelay), Close(StdoutRead))
    && Precedes(t, Close(StdoutRead), Close(Writer))
    && Precedes(t, CopyFinished(OutputRelay), Close(Writer))
  }

  /** Two events in order in a subsequence are in order in the whole. */
  lemma {:induction false} SubseqPrecedes(x: seq<Event>, t: seq<Event>, i: int, j: int)
    requires Subseq(x, t) && 0 <= i < j < |x|
    ensures Precedes(t, x[i], x[j])
    decreases |t|
  {
    if x[0] == t[0] && Subseq(x[1..], t[1..]) {
      if i == 0 {
        SubseqHas(x[1..], t[1..], j - 1);
        var l :| 0 <= l < |t[1..]| && t[1..][l] == x[j];
        assert t[0] == x[i] && t[l + 1] == x[j];
      } else {
        SubseqPrecedes(x[1..], t[1..], i - 1, j - 1);
        var k, l :| 0 <= k < l < |t[1..]| && t[1..][k] == x[i] && t[1..][l] == x[j];
        assert t[k + 1] == x[i] && t[l + 1] == x[j];
      }
    } else {
      SubseqPrecedes(x, t[1..], i, j);
      var k, l :| 0 <= k < l < |t[1..]| && t[1..][k] == x[i] && t[1..][l] == x[j];
      assert t[k + 1] == x[i] && t[l + 1] == x[j];
    }
  }

  /** Order inside a segment survives whatever comes before and after it. */
  lemma PrecedesInside(u: seq<Event>, t: seq<Event>, w: seq<Event>, a: Event, b: Event)
    requires Precedes(t, a, b)
    ensures Precedes(u + t + w, a, b)
  {
    var i, j :| 0 <= i < j < |t| && t[i] == a && t[j] == b;
    assert (u + t + w)[|u| + i] == a && (u + t + w)[|u| + j] == b;
  }

  lemma {:induction false} LaunchNoTraffic(t: seq<Event>)
    requires LaunchEventsOnly(t)
    ensures SentValues(t) == [] && NoReceives(t)
    ensures ProcessWaited !in t && Drained !in t
    decreases |t|
  {
    if |t| > 0 {
      assert LaunchEventsOnly(t[1..]) by {
        forall i | 0 <= i < |t[1..]| ensures t[1..][i] == t[i + 1] {}
      }
      LaunchNoTraffic(t[1..]);
      assert t == [t[0]] + t[1..];
    }
  }

  lemma {:induction false} NoReceivesValues(t: seq<Event>)
    requires NoReceives(t)
    ensures ReceivedValues(t) == []
    decreases |t|
  {
    if |t| > 0 {
      assert NoReceives(t[1..]) by {
        forall i | 0 <= i < |t[1..]| ensures t[1..][i] == t[i + 1] {}
      }
      NoReceivesValues(t[1..]);
    }
  }
}
