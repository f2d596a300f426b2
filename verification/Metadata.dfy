/**
 The replicated metadata state machine (distributed-walrus/src/metadata.rs):
 topics, their segments, the leader of each segment and the sealed entry counts.
 */
module Metadata {
  import opened Basics

  type NodeId = nat

  datatype TopicState = TopicState(
    current: nat,               // the open segment
    leader: NodeId,             // its leader
    sealedOffset: nat,          // cumulative sealed entries, a u64
    sealed: map<nat, nat>,      // sealed segment -> entry count
    leaders: map<nat, NodeId>)  // segment -> leader

  datatype ClusterState = ClusterState(topics: map<string, TopicState>, nodes: map<NodeId, string>)

  datatype Cmd =
    | CreateTopic(name: string, initialLeader: NodeId)
    | RolloverTopic(name: string, newLeader: NodeId, count: nat)
    | UpsertNode(id: NodeId, addr: string)

  datatype Reply = Created | Exists | Rolled | TopicNotFound | NodeStored

  const EMPTY := ClusterState(map[], map[])

  function NewTopic(leader: NodeId): TopicState {
    TopicState(1, leader, 0, map[], map[1 := leader])
  }

  /** Sealing the open segment with `count` entries and opening the next one under `newLeader`. */
  function Roll(t: TopicState, newLeader: NodeId, count: nat): TopicState {
    TopicState(
      t.current + 1,
      newLeader,
      (t.sealedOffset + count) % TWO_64,
      t.sealed[t.current := count],
      t.leaders[t.current := t.leader][t.current + 1 := newLeader])
  }

  function Apply(s: ClusterState, cmd: Cmd): ClusterState {
    match cmd
    case CreateTopic(name, leader) =>
      if name in s.topics then s else s.(topics := s.topics[name := NewTopic(leader)])
    case RolloverTopic(name, leader, count) =>
      if name in s.topics then s.(topics := s.topics[name := Roll(s.topics[name], leader, count)]) else s
    case UpsertNode(id, addr) => s.(nodes := s.nodes[id := addr])
  }

  function ReplyTo(s: ClusterState, cmd: Cmd): Reply {
    match cmd
    case CreateTopic(name, _) => if name in s.topics then Exists else Created
    case RolloverTopic(name, _, _) => if name in s.topics then Rolled else TopicNotFound
    case UpsertNode(_, _) => NodeStored
  }

  /** The state after applying a command log from the start. */
  function Replay(log: seq<Cmd>): ClusterState {
    if log == [] then EMPTY else Apply(Replay(Front(log)), Last(log))
  }

  function Owned(s: ClusterState, node: NodeId): set<(string, nat)> {
    set t | t in s.topics && s.topics[t].leader == node :: (t, s.topics[t].current)
  }

  function SealedCount(s: ClusterState, topic: string, segment: nat): Option<nat> {
    if topic in s.topics && segment in s.topics[topic].sealed
    then Some(s.topics[topic].sealed[segment])
    else None
  }

  /** The leader on record for a segment, falling back to the current leader of the topic. */
  function SegmentLeader(s: ClusterState, topic: string, segment: nat): Option<NodeId> {
    if topic !in s.topics then None
    else if segment in s.topics[topic].leaders then Some(s.topics[topic].leaders[segment])
    else Some(s.topics[topic].leader)
  }

  // ----- Reference: what a log says about one topic, as two growing lists -----

  /** The leaders of segments 1, 2, ... of a topic, in order; empty before the topic is created. */
  function Leaders(log: seq<Cmd>, topic: string): seq<NodeId> {
    if log == [] then []
    else
      var before := Leaders(Front(log), topic);
      match Last(log)
      case CreateTopic(name, leader) => if name == topic && before == [] then [leader] else before
      case RolloverTopic(name, leader, _) => if name == topic && before != [] then before + [leader] else before
      case UpsertNode(_, _) => before
  }

  /** The sealed counts of segments 1, 2, ... of a topic, in order. */
  function Counts(log: seq<Cmd>, topic: string): seq<nat> {
    if log == [] then []
    else
      var before := Counts(Front(log), topic);
      match Last(log)
      case RolloverTopic(name, _, count) =>
        if name == topic && Leaders(Front(log), topic) != [] then before + [count] else before
      case _ => before
  }

  /** The topic table holds exactly what the two lists say. */
  ghost predicate Describes(s: ClusterState, topic: string, leaders: seq<NodeId>, counts: seq<nat>) {
    && (topic in s.topics <==> leaders != [])
    && (leaders == [] ==> counts == [])
    && (leaders != [] ==>
          var t := s.topics[topic];
          && |counts| + 1 == |leaders| == t.current
          && t.leader == Last(leaders)
          && t.sealedOffset == Sum(counts) % TWO_64
          && (forall i :: i in t.sealed <==> 1 <= i < t.current)
          && (forall i :: 1 <= i < t.current ==> t.sealed[i] == counts[i - 1])
          && (forall i :: i in t.leaders <==> 1 <= i <= t.current)
          && (forall i :: 1 <= i <= t.current ==> t.leaders[i] == leaders[i - 1]))
  }

  lemma RollDescribed(s: ClusterState, topic: string, leaders: seq<NodeId>, counts: seq<nat>, leader: NodeId, count: nat)
    requires Describes(s, topic, leaders, counts) && leaders != []
    ensures Describes(Apply(s, RolloverTopic(topic, leader, count)), topic, leaders + [leader], counts + [count])
  {
    assert Front(counts + [count]) == counts;
    var t := s.topics[topic];
    var t' := Roll(t, leader, count);
    assert Apply(s, RolloverTopic(topic, leader, count)).topics[topic] == t';
    AddedRemainder(Sum(counts), count);
    assert t'.sealedOffset == Sum(counts + [count]) % TWO_64;
  }

  lemma AddedRemainder(x: nat, y: nat)
    ensures (x % TWO_64 + y) % TWO_64 == (x + y) % TWO_64
  {
  }

  /** After every command sequence: sealed segments are 1..current-1, leaders 1..current, the last
      being the topic's leader, and the cumulative offset is the (u64) sum of the sealed counts. */
  lemma {:induction false} ReplayDescribed(log: seq<Cmd>, topic: string)
    ensures Describes(Replay(log), topic, Leaders(log, topic), Counts(log, topic))
  {
    if log != [] {
      var p := Front(log);
      ReplayDescribed(p, topic);
      match Last(log)
      case CreateTopic(name, leader) =>
      case RolloverTopic(name, leader, count) =>
        if name == topic && Leaders(p, topic) != [] {
          RollDescribed(Replay(p), topic, Leaders(p, topic), Counts(p, topic), leader, count);
        }
      case UpsertNode(_, _) =>
    }
  }

  /** The stored cumulative offset is the true total exactly while that total fits a u64. */
  lemma OffsetExactIff(log: seq<Cmd>, topic: string)
    requires topic in Replay(log).topics
    ensures Replay(log).topics[topic].sealedOffset == Sum(Counts(log, topic)) <==> Sum(Counts(log, topic)) < TWO_64
  {
    ReplayDescribed(log, topic);
    RemainderIsWholeIff(Sum(Counts(log, topic)));
  }

  lemma RemainderIsWholeIff(x: nat)
    ensures x % TWO_64 == x <==> x < TWO_64
  {
  }

  lemma {:induction false} HistoryGrows(p: seq<Cmd>, log: seq<Cmd>, topic: string)
    requires p <= log
    ensures Leaders(p, topic) <= Leaders(log, topic)
    ensures Counts(p, topic) <= Counts(log, topic)
    decreases |log|
  {
    if p != log {
      assert p <= Front(log);
      HistoryGrows(p, Front(log), topic);
    } else {
      assert p == log;
    }
  }

  /** No later command changes an existing sealed count or segment leader. */
  lemma HistoryStable(p: seq<Cmd>, log: seq<Cmd>, topic: string)
    requires p <= log && topic in Replay(p).topics
    ensures topic in Replay(log).topics
    ensures var before, after := Replay(p).topics[topic], Replay(log).topics[topic];
            && before.current <= after.current
            && (forall i :: i in before.sealed ==> i in after.sealed && after.sealed[i] == before.sealed[i])
            && (forall i :: i in before.leaders ==> i in after.leaders && after.leaders[i] == before.leaders[i])
  {
    ReplayDescribed(p, topic);
    ReplayDescribed(log, topic);
    HistoryGrows(p, log, topic);
  }

  /** `n` leads segment `s` of topic `t` according to the log. */
  predicate Leads(log: seq<Cmd>, t: string, s: nat, n: NodeId) {
    1 <= s <= |Leaders(log, t)| && Leaders(log, t)[s - 1] == n
  }

  /** For segments in range neither lookup takes its fallback, and a replica that has applied any
      prefix of the log names the leader that the whole log names. */
  lemma LookupsInRange(p: seq<Cmd>, log: seq<Cmd>, topic: string, segment: nat)
    requires p <= log && topic in Replay(p).topics
    requires 1 <= segment <= Replay(p).topics[topic].current
    ensures segment in Replay(p).topics[topic].leaders
    ensures SegmentLeader(Replay(p), topic, segment).Some?
    ensures Leads(log, topic, segment, SegmentLeader(Replay(p), topic, segment).value)
    ensures segment == Replay(p).topics[topic].current ==>
              SegmentLeader(Replay(p), topic, segment) == Some(Replay(p).topics[topic].leader)
    ensures segment < Replay(p).topics[topic].current ==>
              && SealedCount(Replay(p), topic, segment).Some?
              && SealedCount(Replay(log), topic, segment) == SealedCount(Replay(p), topic, segment)
  {
    ReplayDescribed(p, topic);
    HistoryGrows(p, log, topic);
    HistoryStable(p, log, topic);
  }

  /** The open segment a replica owns is one it leads according to every longer log. */
  lemma OwnedIsLed(p: seq<Cmd>, log: seq<Cmd>, node: NodeId, topic: string, segment: nat)
    requires p <= log && (topic, segment) in Owned(Replay(p), node)
    ensures Leads(log, topic, segment, node)
  {
    ReplayDescribed(p, topic);
    LookupsInRange(p, log, topic, segment);
  }

  /** `s` is the open segment of topic `t` according to the log, and `n` its leader. */
  predicate LeadsOpen(log: seq<Cmd>, t: string, s: nat, n: NodeId) {
    var leaders := Leaders(log, t);
    leaders != [] && s == |leaders| && Last(leaders) == n
  }

  /** A node owns exactly the open segments whose leader is the one the log named last. */
  lemma OwnedIff(log: seq<Cmd>, node: NodeId, topic: string, segment: nat)
    ensures (topic, segment) in Owned(Replay(log), node) <==> LeadsOpen(log, topic, segment, node)
  {
    ReplayDescribed(log, topic);
  }

  /** Outside the segments of a topic there is no sealed count, and the lookup falls back to the leader named
      last, if there is one. */
  lemma LookupsOutOfRange(log: seq<Cmd>, topic: string, segment: nat)
    ensures !(1 <= segment < |Leaders(log, topic)|) ==> SealedCount(Replay(log), topic, segment) == None
    ensures !(1 <= segment <= |Leaders(log, topic)|) ==>
              SegmentLeader(Replay(log), topic, segment)
              == if Leaders(log, topic) == [] then None else Some(Last(Leaders(log, topic)))
  {
    ReplayDescribed(log, topic);
  }

  /** The address the log gave a node last. */
  function LastAddress(log: seq<Cmd>, id: NodeId): Option<string> {
    if log == [] then None
    else if Last(log).UpsertNode? && Last(log).id == id then Some(Last(log).addr)
    else LastAddress(Front(log), id)
  }

  /** The node table holds each node's last address, and no other command touches it. */
  lemma {:induction false} NodesDescribed(log: seq<Cmd>, id: NodeId)
    ensures id in Replay(log).nodes <==> LastAddress(log, id).Some?
    ensures id in Replay(log).nodes ==> Some(Replay(log).nodes[id]) == LastAddress(log, id)
  {
    if log != [] {
      NodesDescribed(Front(log), id);
    }
  }

  /** The command gives topic `t` its first segment. */
  predicate OpensTopic(log: seq<Cmd>, cmd: Cmd, t: string) {
    Leaders(log, t) == [] && |Leaders(log + [cmd], t)| == 1
  }

  /** The command gives topic `t` one more segment. */
  predicate ExtendsTopic(log: seq<Cmd>, cmd: Cmd, t: string) {
    Leaders(log, t) != [] && |Leaders(log + [cmd], t)| == |Leaders(log, t)| + 1
  }

  /** The reply says what the command did to the topics: a first segment for one of them, a further segment
      for one of them, or nothing. */
  lemma ReplyMeans(log: seq<Cmd>, cmd: Cmd)
    ensures var reply := ReplyTo(Replay(log), cmd);
            && (reply == Created <==> exists t :: OpensTopic(log, cmd, t))
            && (reply == Rolled <==> exists t :: ExtendsTopic(log, cmd, t))
            && (reply == Exists <==> cmd.CreateTopic? && Leaders(log, cmd.name) != [])
            && (reply == TopicNotFound <==> cmd.RolloverTopic? && Leaders(log, cmd.name) == [])
            && (reply == NodeStored <==> cmd.UpsertNode?)
            && (reply.Exists? || reply.TopicNotFound? || reply.NodeStored? ==>
                  Replay(log + [cmd]).topics == Replay(log).topics)
  {
    assert Front(log + [cmd]) == log;
    forall t
      ensures OpensTopic(log, cmd, t) <==> cmd.CreateTopic? && cmd.name == t && Leaders(log, t) == []
      ensures ExtendsTopic(log, cmd, t) <==> cmd.RolloverTopic? && cmd.name == t && Leaders(log, t) != []
    {
    }
    if !cmd.UpsertNode? { ReplayDescribed(log, cmd.name); }
    assert cmd.CreateTopic? && Leaders(log, cmd.name) == [] ==> OpensTopic(log, cmd, cmd.name);
    assert cmd.RolloverTopic? && Leaders(log, cmd.name) != [] ==> ExtendsTopic(log, cmd, cmd.name);
  }

  /** The state machine object each node holds. */
  class MetadataStore {
    var topics: map<string, TopicState>
    var nodes: map<NodeId, string>

    function State(): ClusterState
      reads this
    {
      ClusterState(topics, nodes)
    }

    constructor ()
      ensures State() == Replay([])
    {
      topics, nodes := map[], map[];
    }

    method ApplyCommand(cmd: Cmd) returns (reply: Reply)
      modifies this
      ensures State() == Apply(old(State()), cmd)
      ensures reply == ReplyTo(old(State()), cmd)
    {
      match cmd
      case CreateTopic(name, initialLeader) =>
        if name in topics {
          return Exists;
        }
        var topic := TopicState(1, initialLeader, 0, map[], map[]);
        topic := topic.(leaders := topic.leaders[1 := initialLeader]);
        topics := topics[name := topic];
        return Created;
      case RolloverTopic(name, newLeader, count) =>
        if name in topics {
          var t := topics[name];
          var sealedSegment := t.current;
          t := t.(sealed := t.sealed[sealedSegment := count]);
          t := t.(leaders := t.leaders[sealedSegment := t.leader]);
          t := t.(sealedOffset := (t.sealedOffset + count) % TWO_64);
          t := t.(current := t.current + 1);
          t := t.(leader := newLeader);
          t := t.(leaders := t.leaders[t.current := newLeader]);
          topics := topics[name := t];
          return Rolled;
        }
        return TopicNotFound;
      case UpsertNode(id, addr) =>
        nodes := nodes[id := addr];
        return NodeStored;
    }

    method OwnedTopics(node: NodeId) returns (out: set<(string, nat)>)
      ensures out == Owned(State(), node)
    {
      out := {};
      var rest := topics.Keys;
      while rest != {}
        invariant rest <= topics.Keys
        invariant out == set t | t in topics && t !in rest && topics[t].leader == node :: (t, topics[t].current)
        decreases |rest|
      {
        var t :| t in rest;
        if topics[t].leader == node {
          out := out + {(t, topics[t].current)};
        }
        rest := rest - {t};
      }
    }
  }
}
