/** The key-value store as the replicas see it: equal progress through the log, equal maps. */
module KvReplication {
  import opened Types
  import opened NodeInvariants
  import opened Cluster
  import opened ClusterSafety
  import opened KvCommand

  /** Two nodes that have applied equally far, at whatever two times, have built the same map. */
  lemma EqualProgressEqualMaps(states: seq<System>, steps: seq<Step>, x: nat, y: nat, p: nat, q: nat)
    requires SafeRun(states, steps) && x <= y < |states| && p < |states[0].nodes| && q < |states[0].nodes|
    ensures p < |states[x].nodes| && q < |states[y].nodes|
    ensures states[x].nodes[p].lastApplied == states[y].nodes[q].lastApplied ==>
              Replay(states[x].nodes[p].applied) == Replay(states[y].nodes[q].applied)
  {
    AppliedCommandsAgree(states, steps, x, y, p, q);
    var a, b := states[x].nodes[p], states[y].nodes[q];
    if a.lastApplied == b.lastApplied {
      assert a.applied <= b.applied && b.applied <= a.applied;
      assert a.applied == b.applied;
    }
  }

  /** A read that goes through the log is answered with the value of the last set of its key before it in the
      log, or with there being none; whichever node applies it, and whenever, the answer is the same. */
  lemma ReadThroughLog(states: seq<System>, steps: seq<Step>, x: nat, p: nat, i: nat, y: nat, q: nat, key: seq<byte>)
    requires SafeRun(states, steps) && Applies(states, steps, x, p, i) && Applies(states, steps, y, q, i)
    requires i < |states[x].nodes[p].log| && Asks(states[x].nodes[p].log[i].command, key)
    ensures var reply := Execute(Replay(states[x].nodes[p].applied), states[x].nodes[p].log[i].command).1;
            && Answers(CommandsOf(states[x].nodes[p].log[..i]), key, reply)
            && i < |states[y].nodes[q].log|
            && reply == Execute(Replay(states[y].nodes[q].applied), states[y].nodes[q].log[i].command).1
  {
    StateMachineSafety(states, steps, x, y, p, q, i);
    SameHistory(states, steps, x, p, i, y, q);
    ReadsLastWrite(states[x].nodes[p].applied, states[x].nodes[p].log[i].command, key);
  }

  lemma SameHistory(states: seq<System>, steps: seq<Step>, x: nat, p: nat, i: nat, y: nat, q: nat)
    requires SafeRun(states, steps) && Applies(states, steps, x, p, i) && Applies(states, steps, y, q, i)
    ensures i <= |states[x].nodes[p].log| && states[x].nodes[p].applied == CommandsOf(states[x].nodes[p].log[..i])
    ensures states[x].nodes[p].applied == states[y].nodes[q].applied
  {
    NodesStay(states, steps, x);
    NodesStay(states, steps, y);
    AppliedRun(states, steps, x, p);
    if x <= y {
      AppliedCommandsAgree(states, steps, x, y, p, q);
    } else {
      AppliedCommandsAgree(states, steps, y, x, q, p);
    }
  }

  lemma {:induction false} NodesStay(states: seq<System>, steps: seq<Step>, x: nat)
    requires SafeRun(states, steps) && x < |states|
    ensures |states[x].nodes| == |states[0].nodes|
  {
    if x > 0 {
      NodesStay(states, steps, x - 1);
      StepTaken(states, steps, x - 1);
      StepIsHandle(states[x - 1], steps[x - 1]);
    }
  }

  /** Commands that do not set a key leave what the map holds there. */
  lemma {:induction false} ReplayContinues(cmds: seq<seq<byte>>, more: seq<seq<byte>>, key: seq<byte>)
    requires forall i :: 0 <= i < |more| ==> !Sets(more[i], key)
    ensures key in Replay(cmds + more) <==> key in Replay(cmds)
    ensures key in Replay(cmds) ==> Replay(cmds + more)[key] == Replay(cmds)[key]
  {
    if more == [] {
      assert cmds + more == cmds;
    } else {
      var k := |more| - 1;
      ReplayContinues(cmds, more[..k], key);
      assert (cmds + more)[..|cmds| + k] == cmds + more[..k];
    }
  }

  /** A replica that lags behind differs from the one ahead only in keys that the commands it has not
      applied yet set. */
  lemma LaggingReplicaReadsPast(states: seq<System>, steps: seq<Step>, x: nat, p: nat, q: nat, key: seq<byte>)
    requires SafeRun(states, steps) && x < |states| && p < |states[0].nodes| && q < |states[0].nodes|
    requires p < |states[x].nodes| && q < |states[x].nodes|
    requires states[x].nodes[p].lastApplied <= states[x].nodes[q].lastApplied
    requires forall i :: |states[x].nodes[p].applied| <= i < |states[x].nodes[q].applied| ==>
               !Sets(states[x].nodes[q].applied[i], key)
    ensures key in Replay(states[x].nodes[p].applied) <==> key in Replay(states[x].nodes[q].applied)
    ensures key in Replay(states[x].nodes[p].applied) ==>
              Replay(states[x].nodes[p].applied)[key] == Replay(states[x].nodes[q].applied)[key]
  {
    AppliedCommandsAgree(states, steps, x, x, p, q);
    var a, b := states[x].nodes[p].applied, states[x].nodes[q].applied;
    assert b == a + b[|a|..];
    ReplayContinues(a, b[|a|..], key);
  }
}
