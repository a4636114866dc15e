/** Mux mode: one child per Slack channel, started when the first message
    from that channel arrives and never started again. Each message is one
    step of a fold whose state is the set of channels already spawned. */
module Mux {
  import opened Replace
  import opened Lifecycle
  import Childproc

  /** A message received from Slack. */
  datatype Message = Message(id: int, channelID: string, text: string)

  /** A child started for `channelID`: its argument vector, the message its
      reader starts at, and what Spawn returned (which mux mode ignores). */
  datatype Child = Child(channelID: string, startID: int, argv: seq<string>, launch: Childproc.SpawnResult)

  datatype MuxState = MuxState(spawned: set<string>, children: seq<Child>)

  const Initial := MuxState({}, [])

  /** The text replaced by the channel ID in every argument. */
  const ChannelIDTemplate: string := "{{.ChannelID}}"

  /** The replacement text is copied literally only when it holds no `$`,
      which would otherwise start a group reference. */
  predicate PlainID(channelID: string)
  {
    '$' !in channelID
  }

  predicate AllPlain(msgs: seq<Message>)
  {
    forall i :: 0 <= i < |msgs| ==> PlainID(msgs[i].channelID)
  }

  /** The argument vector of the child for `channelID`. */
  function ChildArgs(args: seq<string>, channelID: string): (r: seq<string>)
    requires PlainID(channelID)
    ensures |r| == |args|
    ensures forall i :: 0 <= i < |args| ==> r[i] == ReplaceAll(args[i], ChannelIDTemplate, channelID)
  {
    seq(|args|, i requires 0 <= i < |args| => ReplaceAll(args[i], ChannelIDTemplate, channelID))
  }

  /** An argument without the template is passed through as it is. */
  lemma ChildArgsKeepPlain(args: seq<string>, channelID: string, i: int)
    requires PlainID(channelID) && 0 <= i < |args| && !Contains(args[i], ChannelIDTemplate)
    ensures ChildArgs(args, channelID)[i] == args[i]
  {
    ReplaceNoMatch(args[i], ChannelIDTemplate, channelID);
  }

  /** When some argument holds the template, two channels never share an
      argument vector. */
  lemma ChildArgsDistinct(args: seq<string>, a: string, b: string, i: int)
    requires PlainID(a) && PlainID(b) && 0 <= i < |args| && Contains(args[i], ChannelIDTemplate)
    requires ChildArgs(args, a) == ChildArgs(args, b)
    ensures a == b
  {
    ReplaceInjective(args[i], ChannelIDTemplate, a, b);
  }

  /** Starting the child for the channel of `msg`. */
  function Start(args: seq<string>, msg: Message, env: SpawnEnv): (c: Child)
    requires |args| > 0 && PlainID(msg.channelID)
    ensures StartedBy(c, msg) && c.argv == ChildArgs(args, msg.channelID)
  {
    var argv := ChildArgs(args, msg.channelID);
    Child(msg.channelID, msg.id, argv, Childproc.Spawn(argv, env))
  }

  /** One message. `env` is how the launch would go if a child is started. */
  function Step(args: seq<string>, st: MuxState, msg: Message, env: SpawnEnv): (r: MuxState)
    requires |args| > 0 && PlainID(msg.channelID)
    ensures r.spawned == st.spawned + {msg.channelID}
    ensures st.children <= r.children && |r.children| <= |st.children| + 1
    ensures msg.channelID in st.spawned ==> r == st
    ensures msg.channelID !in st.spawned ==>
      |r.children| == |st.children| + 1 && r.children[|st.children|] == Start(args, msg, env)
  {
    if msg.channelID in st.spawned then st
    else MuxState(st.spawned + {msg.channelID}, st.children + [Start(args, msg, env)])
  }

  /** All messages in order, from the initial state; `envs[i]` is the launch
      outcome for a child started at message `i`. Each message starts at
      most one child, and the first message always starts one. */
  function Dispatch(args: seq<string>, msgs: seq<Message>, envs: seq<SpawnEnv>): (r: MuxState)
    requires |args| > 0 && |envs| == |msgs| && AllPlain(msgs)
    ensures |r.children| <= |msgs|
    ensures |msgs| > 0 ==> |r.children| > 0 && StartedBy(r.children[0], msgs[0])
    decreases |msgs|
  {
    if |msgs| == 0 then Initial
    else
      var n := |msgs| - 1;
      Step(args, Dispatch(args, msgs[..n], envs[..n]), msgs[n], envs[n])
  }

  /** Message `i` is the first from its channel. */
  predicate IsFirst(msgs: seq<Message>, i: int)
    requires 0 <= i < |msgs|
  {
    forall j :: 0 <= j < i ==> msgs[j].channelID != msgs[i].channelID
  }

  /** The spawned set is exactly the set of channels heard from. */
  lemma {:induction false} DispatchSpawned(args: seq<string>, msgs: seq<Message>, envs: seq<SpawnEnv>)
    requires |args| > 0 && |envs| == |msgs| && AllPlain(msgs)
    ensures Dispatch(args, msgs, envs).spawned == set m | m in msgs :: m.channelID
    decreases |msgs|
  {
    if |msgs| > 0 {
      var n := |msgs| - 1;
      DispatchSpawned(args, msgs[..n], envs[..n]);
      assert msgs == msgs[..n] + [msgs[n]];
      assert forall m :: m in msgs <==> m in msgs[..n] || m == msgs[n];
    }
  }

  /** The channels of the children. */
  ghost function ChildChannels(cs: seq<Child>): set<string>
  {
    set k | 0 <= k < |cs| :: cs[k].channelID
  }

  /** No two children share a channel, and the children's channels are the
      spawned set. */
  ghost predicate OnePerChannel(st: MuxState)
  {
    (forall k, l :: 0 <= k < l < |st.children| ==> st.children[k].channelID != st.children[l].channelID)
    && ChildChannels(st.children) == st.spawned
  }

  lemma StepOnce(args: seq<string>, st: MuxState, msg: Message, env: SpawnEnv)
    requires |args| > 0 && PlainID(msg.channelID) && OnePerChannel(st)
    ensures OnePerChannel(Step(args, st, msg, env))
  {
    var r := Step(args, st, msg, env);
    if msg.channelID !in st.spawned {
      var n := |st.children|;
      assert forall k :: 0 <= k < n ==> r.children[k] == st.children[k];
      assert r.children[n].channelID == msg.channelID;
      assert ChildChannels(r.children) == ChildChannels(st.children) + {msg.channelID};
    }
  }

  /** No channel gets two children, and every spawned channel has one. */
  lemma {:induction false} DispatchOnce(args: seq<string>, msgs: seq<Message>, envs: seq<SpawnEnv>)
    requires |args| > 0 && |envs| == |msgs| && AllPlain(msgs)
    ensures var cs := Dispatch(args, msgs, envs).children;
      forall k, l :: 0 <= k < l < |cs| ==> cs[k].channelID != cs[l].channelID
    ensures ChildChannels(Dispatch(args, msgs, envs).children) == Dispatch(args, msgs, envs).spawned
    decreases |msgs|
  {
    if |msgs| > 0 {
      var n := |msgs| - 1;
      DispatchOnce(args, msgs[..n], envs[..n]);
      StepOnce(args, Dispatch(args, msgs[..n], envs[..n]), msgs[n], envs[n]);
    }
  }

  /** The last message is the first of its channel exactly when the channel
      is not among those of the earlier ones. */
  lemma LastIsFirst(msgs: seq<Message>, msg: Message)
    ensures IsFirst(msgs + [msg], |msgs|) <==> msg.channelID !in set m | m in msgs :: m.channelID
  {
    var all := msgs + [msg];
    if msg.channelID in set m | m in msgs :: m.channelID {
      var m :| m in msgs && m.channelID == msg.channelID;
      var j :| 0 <= j < |msgs| && msgs[j] == m;
      assert all[j].channelID == all[|msgs|].channelID;
    } else {
      forall j | 0 <= j < |msgs|
        ensures all[j].channelID != all[|msgs|].channelID
      {
        assert msgs[j] in msgs;
      }
    }
  }

  /** Child `c` was started by message `m`. */
  predicate StartedBy(c: Child, m: Message)
  {
    c.channelID == m.channelID && c.startID == m.id
  }

  /** Every child in `cs` was started by the first message of its channel
      in `msgs`. */
  ghost predicate FromFirsts(msgs: seq<Message>, cs: seq<Child>)
  {
    forall k :: 0 <= k < |cs| ==> exists i :: 0 <= i < |msgs| && IsFirst(msgs, i) && StartedBy(cs[k], msgs[i])
  }

  /** Every first message of a channel in `msgs` started a child in `cs`. */
  ghost predicate CoversFirsts(msgs: seq<Message>, cs: seq<Child>)
  {
    forall i :: 0 <= i < |msgs| && IsFirst(msgs, i) ==> exists k :: 0 <= k < |cs| && StartedBy(cs[k], msgs[i])
  }

  lemma StepFromFirsts(args: seq<string>, msgs: seq<Message>, st: MuxState, msg: Message, env: SpawnEnv)
    requires |args| > 0 && PlainID(msg.channelID)
    requires st.spawned == set m | m in msgs :: m.channelID
    requires FromFirsts(msgs, st.children)
    ensures FromFirsts(msgs + [msg], Step(args, st, msg, env).children)
  {
    var all := msgs + [msg];
    var r := Step(args, st, msg, env);
    LastIsFirst(msgs, msg);
    assert forall i :: 0 <= i < |msgs| ==> all[i] == msgs[i];
    forall k | 0 <= k < |r.children|
      ensures exists i :: 0 <= i < |all| && IsFirst(all, i) && StartedBy(r.children[k], all[i])
    {
      if k == |st.children| {
        assert IsFirst(all, |msgs|) && StartedBy(r.children[k], all[|msgs|]);
      } else {
        var i :| 0 <= i < |msgs| && IsFirst(msgs, i) && StartedBy(st.children[k], msgs[i]);
        assert IsFirst(all, i) && StartedBy(r.children[k], all[i]);
      }
    }
    assert forall k :: 0 <= k < |r.children| ==> exists i :: 0 <= i < |all| && IsFirst(all, i) && StartedBy(r.children[k], all[i]);
  }

  lemma StepCoversFirsts(args: seq<string>, msgs: seq<Message>, st: MuxState, msg: Message, env: SpawnEnv)
    requires |args| > 0 && PlainID(msg.channelID)
    requires st.spawned == set m | m in msgs :: m.channelID
    requires CoversFirsts(msgs, st.children)
    ensures CoversFirsts(msgs + [msg], Step(args, st, msg, env).children)
  {
    var all := msgs + [msg];
    var r := Step(args, st, msg, env);
    LastIsFirst(msgs, msg);
    assert forall i :: 0 <= i < |msgs| ==> all[i] == msgs[i];
    forall i | 0 <= i < |all| && IsFirst(all, i)
      ensures exists k :: 0 <= k < |r.children| && StartedBy(r.children[k], all[i])
    {
      if i == |msgs| {
        assert StartedBy(r.children[|st.children|], all[i]);
      } else {
        assert IsFirst(msgs, i);
        var k :| 0 <= k < |st.children| && StartedBy(st.children[k], msgs[i]);
        assert r.children[k] == st.children[k];
      }
    }
  }

  /** Every child was started by the first message of its channel. */
  lemma {:induction false} DispatchFromFirsts(args: seq<string>, msgs: seq<Message>, envs: seq<SpawnEnv>)
    requires |args| > 0 && |envs| == |msgs| && AllPlain(msgs)
    ensures FromFirsts(msgs, Dispatch(args, msgs, envs).children)
    decreases |msgs|
  {
    if |msgs| > 0 {
      var n := |msgs| - 1;
      assert msgs == msgs[..n] + [msgs[n]];
      DispatchFromFirsts(args, msgs[..n], envs[..n]);
      DispatchSpawned(args, msgs[..n], envs[..n]);
      StepFromFirsts(args, msgs[..n], Dispatch(args, msgs[..n], envs[..n]), msgs[n], envs[n]);
    }
  }

  /** Every message that is the first of its channel started a child. */
  lemma {:induction false} DispatchCoversFirsts(args: seq<string>, msgs: seq<Message>, envs: seq<SpawnEnv>)
    requires |args| > 0 && |envs| == |msgs| && AllPlain(msgs)
    ensures CoversFirsts(msgs, Dispatch(args, msgs, envs).children)
    decreases |msgs|
  {
    if |msgs| > 0 {
      var n := |msgs| - 1;
      var pre := msgs[..n];
      assert msgs == pre + [msgs[n]];
      var st := Dispatch(args, pre, envs[..n]);
      DispatchCoversFirsts(args, pre, envs[..n]);
      DispatchSpawned(args, pre, envs[..n]);
      StepCoversFirsts(args, pre, st, msgs[n], envs[n]);
    }
  }

  /** Each child's arguments are the template arguments for its channel. */
  ghost predicate ArgsFor(args: seq<string>, cs: seq<Child>)
  {
    forall k :: 0 <= k < |cs| ==> PlainID(cs[k].channelID) && cs[k].argv == ChildArgs(args, cs[k].channelID)
  }

  lemma StepArgs(args: seq<string>, st: MuxState, msg: Message, env: SpawnEnv)
    requires |args| > 0 && PlainID(msg.channelID) && ArgsFor(args, st.children)
    ensures ArgsFor(args, Step(args, st, msg, env).children)
  {
    var r := Step(args, st, msg, env);
    assert forall k :: 0 <= k < |st.children| ==> r.children[k] == st.children[k];
  }

  lemma {:induction false} DispatchArgs(args: seq<string>, msgs: seq<Message>, envs: seq<SpawnEnv>)
    requires |args| > 0 && |envs| == |msgs| && AllPlain(msgs)
    ensures ArgsFor(args, Dispatch(args, msgs, envs).children)
    decreases |msgs|
  {
    if |msgs| > 0 {
      var n := |msgs| - 1;
      DispatchArgs(args, msgs[..n], envs[..n]);
      StepArgs(args, Dispatch(args, msgs[..n], envs[..n]), msgs[n], envs[n]);
    }
  }

  /** Processing more messages only adds children after the earlier ones and
      only adds channels: no child is replaced or respawned. */
  lemma {:induction false} DispatchGrows(args: seq<string>, msgs: seq<Message>, envs: seq<SpawnEnv>, n: nat)
    requires |args| > 0 && |envs| == |msgs| && AllPlain(msgs) && n <= |msgs|
    ensures AllPlain(msgs[..n])
    ensures Dispatch(args, msgs[..n], envs[..n]).children <= Dispatch(args, msgs, envs).children
    ensures Dispatch(args, msgs[..n], envs[..n]).spawned <= Dispatch(args, msgs, envs).spawned
    decreases |msgs| - n
  {
    if n < |msgs| {
      var m := |msgs| - 1;
      DispatchGrows(args, msgs[..m], envs[..m], n);
      assert msgs[..m][..n] == msgs[..n] && envs[..m][..n] == envs[..n];
    } else {
      assert msgs[..n] == msgs && envs[..n] == envs;
    }
  }

  /** Which channels get a child, with which arguments and from which
      message, does not depend on how the launches go: a channel whose Spawn
      failed is still marked spawned. */
  lemma {:induction false} OutcomeIgnored(args: seq<string>, msgs: seq<Message>, envs1: seq<SpawnEnv>, envs2: seq<SpawnEnv>)
    requires |args| > 0 && |envs1| == |msgs| == |envs2| && AllPlain(msgs)
    ensures Dispatch(args, msgs, envs1).spawned == Dispatch(args, msgs, envs2).spawned
    ensures |Dispatch(args, msgs, envs1).children| == |Dispatch(args, msgs, envs2).children|
    ensures forall k :: 0 <= k < |Dispatch(args, msgs, envs1).children| ==>
      var c1, c2 := Dispatch(args, msgs, envs1).children[k], Dispatch(args, msgs, envs2).children[k];
      c1.channelID == c2.channelID && c1.startID == c2.startID && c1.argv == c2.argv
    decreases |msgs|
  {
    if |msgs| > 0 {
      var n := |msgs| - 1;
      OutcomeIgnored(args, msgs[..n], envs1[..n], envs2[..n]);
    }
  }

  /** The usage example `./start-bot.sh -c {{.ChannelID}}`: only the last
      argument changes, and it becomes the channel ID. */
  lemma UsageExample(id: string)
    requires PlainID(id)
    ensures ChildArgs(["./start-bot.sh", "-c", ChannelIDTemplate], id) == ["./start-bot.sh", "-c", id]
  {
    TemplateLast("./start-bot.sh", "-c", id);
  }

  /** Two plain arguments followed by the template alone. */
  lemma TemplateLast(a: string, b: string, id: string)
    requires '{' !in a && '{' !in b && PlainID(id)
    ensures ChildArgs([a, b, ChannelIDTemplate], id) == [a, b, id]
  {
    var args := [a, b, ChannelIDTemplate];
    NoBraceNoTemplate(a);
    NoBraceNoTemplate(b);
    ChildArgsKeepPlain(args, id, 0);
    ChildArgsKeepPlain(args, id, 1);
    ReplaceSelfOnly(id);
  }

  /** The template starts with a brace, so text without one cannot hold it. */
  lemma NoBraceNoTemplate(s: string)
    requires '{' !in s
    ensures !Contains(s, ChannelIDTemplate)
  {
    forall i | 0 <= i <= |s|
      ensures !OccursAt(s, ChannelIDTemplate, i)
    {
      if i + |ChannelIDTemplate| <= |s| {
        assert s[i..i + |ChannelIDTemplate|][0] == s[i];
      }
    }
  }

  /** The template alone becomes the channel ID. */
  lemma ReplaceSelfOnly(id: string)
    ensures ReplaceAll(ChannelIDTemplate, ChannelIDTemplate, id) == id
  {
    assert ChannelIDTemplate[|ChannelIDTemplate|..] == [];
  }
}
