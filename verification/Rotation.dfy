/**
 Choice of the next segment leader: round robin over the sorted voters
 (distributed-walrus/src/controller/mod.rs `maybe_rollover`, distributed-walrus/src/monitor.rs
 `check_rollovers`).
 */
module Rotation {
  import opened Basics
  import opened Metadata

  predicate Distinct(voters: seq<NodeId>) {
    forall i, j :: 0 <= i < j < |voters| ==> voters[i] != voters[j]
  }

  /** First position of a node in the voter list, or 0 when it is not a voter. */
  function Position(voters: seq<NodeId>, n: NodeId): (i: nat)
    ensures n in voters ==> i < |voters| && voters[i] == n
    ensures n !in voters ==> i == 0
  {
    if voters == [] then 0
    else if voters[0] == n then 0
    else
      var rest := Position(voters[1..], n);
      if n in voters[1..] then rest + 1 else 0
  }

  function NextLeader(voters: seq<NodeId>, self: NodeId): NodeId {
    if voters == [] then self else voters[(Position(voters, self) + 1) % |voters|]
  }

  /** Every rollover of the topic in the log was proposed by the leader of the segment it sealed. */
  predicate RolledByOwnLeader(log: seq<Cmd>, topic: string, voters: seq<NodeId>) {
    log != [] ==>
      && RolledByOwnLeader(Front(log), topic, voters)
      && (Last(log).RolloverTopic? && Last(log).name == topic && Leaders(Front(log), topic) != [] ==>
            Last(log).newLeader == NextLeader(voters, Last(Leaders(Front(log), topic))))
  }

  predicate Follows(leaders: seq<NodeId>, voters: seq<NodeId>, i: nat) {
    1 <= i < |leaders| && leaders[i] == NextLeader(voters, leaders[i - 1])
  }

  predicate Rotates(leaders: seq<NodeId>, voters: seq<NodeId>) {
    forall i :: 1 <= i < |leaders| ==> Follows(leaders, voters, i)
  }

  lemma {:induction false} OwnRolloversRotate(log: seq<Cmd>, topic: string, voters: seq<NodeId>)
    requires RolledByOwnLeader(log, topic, voters)
    ensures Rotates(Leaders(log, topic), voters)
  {
    if log != [] {
      OwnRolloversRotate(Front(log), topic, voters);
      var before, after := Leaders(Front(log), topic), Leaders(log, topic);
      forall i | 1 <= i < |after| ensures Follows(after, voters, i) {
        if i < |before| { assert Follows(before, voters, i); }
      }
    }
  }

  /** The voter after position `p` on the ring of `n` positions. */
  function Succ(p: nat, n: nat): (r: nat)
    requires p < n
    ensures r < n
  {
    if p + 1 == n then 0 else p + 1
  }

  lemma NextLeaderIsSucc(voters: seq<NodeId>, self: NodeId)
    requires voters != []
    ensures Position(voters, self) < |voters|
    ensures NextLeader(voters, self) == voters[Succ(Position(voters, self), |voters|)]
  {
    ModIsSucc(Position(voters, self), |voters|);
  }

  lemma ModIsSucc(p: nat, n: nat)
    requires p < n
    ensures (p + 1) % n == Succ(p, n)
  {
  }

  /** The position `k` steps round the ring from `p`. */
  function Turn(p: nat, k: nat, n: nat): (r: nat)
    requires p < n
    ensures r < n
    ensures k < n ==> r == if p + k < n then p + k else p + k - n
  {
    if k == 0 then p else Succ(Turn(p, k - 1, n), n)
  }

  /** After the voter at position `p` comes the voter at the next position. */
  lemma CycleStep(leaders: seq<NodeId>, voters: seq<NodeId>, i: nat, p: nat)
    requires Follows(leaders, voters, i) && Distinct(voters) && p < |voters| && leaders[i - 1] == voters[p]
    ensures leaders[i] == voters[Succ(p, |voters|)]
  {
    NextLeaderIsSucc(voters, voters[p]);
  }

  /** From any segment led by a voter, the following leaders are the following voters, cyclically. */
  lemma {:induction false} LeadersCycle(leaders: seq<NodeId>, voters: seq<NodeId>, i: nat, k: nat)
    requires Rotates(leaders, voters) && Distinct(voters)
    requires i + k < |leaders| && leaders[i] in voters
    ensures leaders[i + k] == voters[Turn(Position(voters, leaders[i]), k, |voters|)]
  {
    if k > 0 {
      LeadersCycle(leaders, voters, i, k - 1);
      CycleStep(leaders, voters, i + k, Turn(Position(voters, leaders[i]), k - 1, |voters|));
    }
  }

  /** Node `v` leads exactly one of the `n` segments that start at index `i`. */
  predicate LeadsOnce(leaders: seq<NodeId>, i: nat, n: nat, v: NodeId) {
    && i + n <= |leaders|
    && exists k :: i <= k < i + n && leaders[k] == v && forall j :: i <= j < i + n && leaders[j] == v ==> j == k
  }

  lemma VoterLeadsOnce(leaders: seq<NodeId>, voters: seq<NodeId>, i: nat, v: nat)
    requires Rotates(leaders, voters) && Distinct(voters) && v < |voters|
    requires i + |voters| <= |leaders| && leaders[i] in voters
    ensures LeadsOnce(leaders, i, |voters|, voters[v])
  {
    var n, p := |voters|, Position(voters, leaders[i]);
    var k := if v >= p then v - p else v + n - p;
    forall j | i <= j < i + n ensures leaders[j] == voters[v] <==> j == i + k {
      LeadersCycle(leaders, voters, i, j - i);
    }
    assert leaders[i + k] == voters[v];
  }

  /** Fair rotation: every window of `n` consecutive segments gives each of the `n` voters exactly one
      segment. The first window is fair exactly when the initial leader is a voter; from the second
      segment on the windows are always fair. */
  lemma FairRotation(log: seq<Cmd>, topic: string, voters: seq<NodeId>, i: nat)
    requires Distinct(voters) && voters != [] && RolledByOwnLeader(log, topic, voters)
    requires i + |voters| <= |Leaders(log, topic)|
    ensures (forall v :: v in voters ==> LeadsOnce(Leaders(log, topic), i, |voters|, v))
            <==> (i > 0 || Leaders(log, topic)[0] in voters)
  {
    var leaders, n := Leaders(log, topic), |voters|;
    OwnRolloversRotate(log, topic, voters);
    if i > 0 || leaders[0] in voters {
      assert leaders[i] in voters by {
        if i > 0 { assert Follows(leaders, voters, i); }
      }
      forall v | v in voters ensures LeadsOnce(leaders, i, n, v) {
        VoterLeadsOnce(leaders, voters, i, Position(voters, v));
      }
    } else {
      StrangerTakesASlot(leaders, voters);
    }
  }

  /** With an outsider leading segment 1, only `n - 1` slots are left for `n` voters. */
  lemma StrangerTakesASlot(leaders: seq<NodeId>, voters: seq<NodeId>)
    requires Rotates(leaders, voters) && Distinct(voters) && voters != []
    requires |voters| <= |leaders| && leaders[0] !in voters
    ensures exists v :: v in voters && !LeadsOnce(leaders, 0, |voters|, v)
  {
    // The second leader is voters[1 mod n], so voters[0] would lead segment n + 1 next.
    var n, v := |voters|, voters[0];
    assert Position(voters, leaders[0]) == 0;
    forall k | 0 <= k < n ensures leaders[k] != v {
      if k > 0 {
        assert Follows(leaders, voters, 1);
        NextLeaderIsSucc(voters, leaders[0]);
        assert Position(voters, voters[1]) == 1;
        LeadersCycle(leaders, voters, 1, k - 1);
      }
    }
    assert !LeadsOnce(leaders, 0, n, v);
  }

  /** The rollover a node proposes for its segment when the tracked count reaches the limit. */
  method ProposeRollover(topic: string, self: NodeId, voters: seq<NodeId>, tracked: nat, limit: nat) returns (cmd: Option<Cmd>)
    ensures cmd == if tracked < limit then None else Some(RolloverTopic(topic, NextLeader(voters, self), tracked))
  {
    if tracked < limit {
      return None;
    }
    var index := 0;
    while index < |voters| && voters[index] != self
      invariant index <= |voters| && self !in voters[..index]
    {
      index := index + 1;
    }
    FirstPosition(voters, self, index);
    if index == |voters| {
      index := 0;
    }
    var next := if voters == [] then self else voters[(index + 1) % |voters|];
    return Some(RolloverTopic(topic, next, tracked));
  }

  lemma {:induction false} FirstPosition(voters: seq<NodeId>, n: NodeId, index: nat)
    requires index <= |voters| && n !in voters[..index] && (index < |voters| ==> voters[index] == n)
    ensures Position(voters, n) == if index == |voters| then 0 else index
  {
    if voters != [] {
      if index == 0 {
      } else {
        assert voters[0] == voters[..index][0];
        assert voters[1..][..index - 1] == voters[..index][1..];
        FirstPosition(voters[1..], n, index - 1);
      }
    }
  }
}
