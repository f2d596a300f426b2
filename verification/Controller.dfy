/**
 The node-level code of the data plane, one call at a time: lease-fenced storage
 (distributed-walrus/src/bucket.rs) and the controller that appends, counts, proposes rollovers and
 walks the read cursor (distributed-walrus/src/controller/mod.rs, controller/internal.rs).
 */
module Controller {
  import opened Basics
  import opened Metadata
  import opened WalKeys
  import opened Rotation
  import opened DataPlane

  /** The WAL engine behind its leases. */
  class Storage {
    var activeLeases: set<string>
    var wal: map<string, seq<Payload>>
    var consumed: map<string, nat>

    function Entries(key: string): seq<Payload>
      reads this
    {
      Get(wal, key, [])
    }

    constructor ()
      ensures activeLeases == {} && wal == map[] && consumed == map[]
    {
      activeLeases, wal, consumed := {}, map[], map[];
    }

    method UpdateLeases(expected: set<string>)
      modifies this`activeLeases
      ensures activeLeases == expected
    {
      if activeLeases == expected {
        return;
      }
      var rest := activeLeases;
      while rest != {}
        invariant rest <= activeLeases
        invariant forall key :: key in activeLeases ==> key in rest || key in expected
        decreases |rest|
      {
        var key :| key in rest;
        if key !in expected {
          activeLeases := activeLeases - {key};
        }
        rest := rest - {key};
      }
      rest := expected;
      while rest != {}
        invariant rest <= expected && activeLeases <= expected
        invariant forall key :: key in expected ==> key in rest || key in activeLeases
        decreases |rest|
      {
        var key :| key in rest;
        activeLeases := activeLeases + {key};
        rest := rest - {key};
      }
    }

    /** Rejected without the lease or when the engine fails (`engine` says whether it takes the entry);
        otherwise exactly one entry is added, under that key only. */
    method AppendByKey(key: string, data: Payload, engine: bool) returns (ok: bool)
      modifies this`wal
      ensures ok <==> key in activeLeases && engine
      ensures forall k :: Entries(k) == if ok && k == key then old(Entries(k)) + [data] else old(Entries(k))
    {
      if key !in activeLeases {
        return false;
      }
      if !engine {
        return false;
      }
      wal := wal[key := Entries(key) + [data]];
      return true;
    }
  }

  class NodeController {
    const id: NodeId
    const metadata: MetadataStore
    const bucket: Storage
    var offsets: map<string, nat>

    constructor (id: NodeId, metadata: MetadataStore, bucket: Storage)
      ensures this.id == id && this.metadata == metadata && this.bucket == bucket && offsets == map[]
    {
      this.id, this.metadata, this.bucket, offsets := id, metadata, bucket, map[];
    }

    method UpdateLeases()
      modifies bucket`activeLeases
      ensures bucket.activeLeases == LeaseSet(metadata.State(), id)
    {
      var owned := metadata.OwnedTopics(id);
      var expected := set p | p in owned :: WalKey(p.0, p.1);
      bucket.UpdateLeases(expected);
    }

    method RecordAppend(key: string, n: nat) returns (count: nat)
      modifies this`offsets
      ensures count == Get(old(offsets), key, 0) + n && offsets == old(offsets)[key := count]
    {
      if key !in offsets {
        offsets := offsets[key := 0];
      }
      offsets := offsets[key := offsets[key] + n];
      count := offsets[key];
    }

    /** Two attempts with a lease refresh in between, after a refusal and after an engine failure alike: the
        entry is stored exactly once or not at all, and it is stored exactly when the engine took it and the
        lease was there, in the first attempt, or granted by the metadata, in the second. */
    method AppendWithRetry(key: string, data: Payload, first: bool, second: bool) returns (ok: bool)
      modifies bucket`activeLeases, bucket`wal
      ensures ok <==> (first && key in old(bucket.activeLeases)) || (second && key in LeaseSet(metadata.State(), id))
      ensures forall k :: bucket.Entries(k) == if ok && k == key then old(bucket.Entries(k)) + [data] else old(bucket.Entries(k))
      ensures bucket.activeLeases == old(bucket.activeLeases) || bucket.activeLeases == LeaseSet(metadata.State(), id)
    {
      var attempt := 0;
      while attempt < 2
        invariant attempt <= 2
        invariant attempt == 0 ==> bucket.activeLeases == old(bucket.activeLeases)
        invariant attempt > 0 ==> !(first && key in old(bucket.activeLeases))
        invariant attempt == 2 ==> !(second && key in LeaseSet(metadata.State(), id))
        invariant bucket.activeLeases == old(bucket.activeLeases) || bucket.activeLeases == LeaseSet(metadata.State(), id)
        invariant forall k :: bucket.Entries(k) == old(bucket.Entries(k))
      {
        if attempt > 0 {
          UpdateLeases();
        }
        ok := bucket.AppendByKey(key, data, if attempt == 0 then first else second);
        if ok {
          return true;
        }
        attempt := attempt + 1;
      }
      return false;
    }

    /** `forward_append`: with nothing interleaved, the append is accepted exactly for the open segments
        this node leads according to its metadata, unless the engine fails twice; it is counted once, and a rollover is proposed for the
        same topic exactly when the new count reaches the limit. */
    method ForwardAppend(key: string, data: Payload, voters: seq<NodeId>, limit: nat, first: bool, second: bool)
      returns (ok: bool, proposal: Option<Cmd>)
      modifies bucket`activeLeases, bucket`wal, this`offsets
      ensures ok <==> key in LeaseSet(metadata.State(), id) && (first || second)
      ensures forall k :: bucket.Entries(k) == if ok && k == key then old(bucket.Entries(k)) + [data] else old(bucket.Entries(k))
      ensures offsets == if ok then old(offsets)[key := Get(old(offsets), key, 0) + 1] else old(offsets)
      ensures !ok ==> proposal == None
      ensures forall log, topic, segment: nat ::
                metadata.State() == Replay(log) && key == WalKey(topic, segment) && segment < TWO_64 ==>
                  (ok <==> LeadsOpen(log, topic, segment, id) && (first || second))
      ensures forall topic, segment: nat :: key == WalKey(topic, segment) && segment < TWO_64 ==>
                && (ok <==> (topic, segment) in Owned(metadata.State(), id) && (first || second))
                && (ok ==> proposal == if offsets[key] < limit then None
                                       else Some(RolloverTopic(topic, NextLeader(voters, id), offsets[key])))
    {
      UpdateLeases();
      ok := AppendWithRetry(key, data, first, second);
      proposal := None;
      if ok {
        var count := RecordAppend(key, 1);
        match ParseWalKey(key)
        case None =>
        case Some((topic, segment)) =>
          var tracked := Get(offsets, WalKey(topic, segment), 0);
          proposal := ProposeRollover(topic, id, voters, tracked, limit);
      }
      forall topic, segment: nat | key == WalKey(topic, segment) && segment < TWO_64
        ensures ParseWalKey(key) == Some((topic, segment))
        ensures key in LeaseSet(metadata.State(), id) <==> (topic, segment) in Owned(metadata.State(), id)
      {
        RoundTrip(topic, segment);
        LeasedIffOwned(metadata.State(), id, topic, segment);
      }
      forall log, topic, segment: nat
        | metadata.State() == Replay(log) && key == WalKey(topic, segment) && segment < TWO_64
        ensures key in LeaseSet(metadata.State(), id) <==> LeadsOpen(log, topic, segment, id)
      {
        LeasedIffLeads(log, id, topic, segment);
      }
    }
  }

  lemma LeasedIffOwned(s: ClusterState, id: NodeId, topic: string, segment: nat)
    ensures WalKey(topic, segment) in LeaseSet(s, id) <==> (topic, segment) in Owned(s, id)
  {
    if WalKey(topic, segment) in LeaseSet(s, id) {
      var p :| p in Owned(s, id) && WalKey(topic, segment) == WalKey(p.0, p.1);
      WalKeyInjective(topic, segment, p.0, p.1);
      assert p == (topic, segment);
    }
    if (topic, segment) in Owned(s, id) {
      var p := (topic, segment);
      assert p in Owned(s, id) && WalKey(p.0, p.1) in LeaseSet(s, id);
    }
  }

  /** The lease of a key is due to a node exactly when the log makes it the leader of that open segment. */
  lemma LeasedIffLeads(log: seq<Cmd>, id: NodeId, topic: string, segment: nat)
    ensures WalKey(topic, segment) in LeaseSet(Replay(log), id) <==> LeadsOpen(log, topic, segment, id)
  {
    LeasedIffOwned(Replay(log), id, topic, segment);
    OwnedIff(log, id, topic, segment);
  }

  /** `k` more commands applied. */
  function Applying(log: seq<Cmd>, self: NodeId, node: Node, k: nat): Node {
    if k == 0 then node else LocalStep(log, self, Applying(log, self, node, k - 1), ApplyNext)
  }

  lemma {:induction false} AppliesInTurn(log: seq<Cmd>, self: NodeId, node: Node, k: nat)
    requires node.applied + k <= |log|
    ensures Applying(log, self, node, k) == node.(applied := node.applied + k)
  {
    if k > 0 { AppliesInTurn(log, self, node, k - 1); }
  }

  /** Computing the leases and installing them. */
  function Refresh(log: seq<Cmd>, self: NodeId, node: Node): Node {
    var computed := LocalStep(log, self, node, ComputeLeases);
    LocalStep(log, self, computed, InstallLeases(LeaseSet(Replay(Prefix(log, node)), self)))
  }

  lemma RefreshInstalls(log: seq<Cmd>, self: NodeId, node: Node)
    ensures Refresh(log, self, node).leases == LeaseSet(Replay(Prefix(log, node)), self)
  {
    var computed := LocalStep(log, self, node, ComputeLeases);
    assert computed == node.(computed := node.computed + {LeaseSet(Replay(Prefix(log, node)), self)});
  }

  /** A node that applies the rest of the log, computes its leases and installs them then holds exactly the
      leases of the open segments it leads in the whole log, whatever it held before. */
  lemma LeasesCatchUp(log: seq<Cmd>, self: NodeId, node: Node, topic: string, segment: nat)
    requires node.applied <= |log|
    ensures WalKey(topic, segment) in Refresh(log, self, Applying(log, self, node, |log| - node.applied)).leases
            <==> LeadsOpen(log, topic, segment, self)
  {
    AppliesInTurn(log, self, node, |log| - node.applied);
    var caughtUp := Applying(log, self, node, |log| - node.applied);
    assert Prefix(log, caughtUp) == log;
    RefreshInstalls(log, self, caughtUp);
    LeasedIffLeads(log, self, topic, segment);
  }

  // ----- The read loop -----

  datatype ReadResult = UnknownTopic | Unreachable | Nothing | Got(data: Payload)

  /** The leader of the segment has handed everything out. */
  predicate Exhausted(s: ClusterState, nodes: map<NodeId, Node>, topic: string, segment: nat)
    requires topic in s.topics
  {
    var l := Route(s, topic, segment);
    l in nodes && Taken(nodes[l], WalKey(topic, segment)) >= |Fifo(nodes[l], WalKey(topic, segment))|
  }

  /** What entitles a cursor to leave a segment: it is sealed, and counted out or exhausted. */
  predicate MayLeave(s: ClusterState, nodes: map<NodeId, Node>, topic: string, start: Cursor, segment: nat)
    requires topic in s.topics
  {
    && segment < s.topics[topic].current
    && (|| Exhausted(s, nodes, topic, segment)
        || (if segment == start.segment then start.delivered else 0) >= CountOrZero(s, topic, segment))
  }

  /** `read_one_for_topic` while the metadata stands still: it returns the first entry not yet handed out
      in the first segment, from the cursor on, that the cursor may not leave; it takes that entry from
      that segment's leader and touches no other read position. */
  method ReadOneForTopic(s: ClusterState, topic: string, start: Cursor, nodes: map<NodeId, Node>)
    returns (result: ReadResult, cursor: Cursor, after: map<NodeId, Node>)
    ensures result.UnknownTopic? <==> topic !in s.topics
    ensures result.UnknownTopic? ==> cursor == start && after == nodes
    ensures topic in s.topics ==>
              var from := if start.segment == 0 then start.(segment := 1) else start;
              && from.segment <= cursor.segment
              && (forall j :: from.segment <= j < cursor.segment ==> MayLeave(s, nodes, topic, from, j))
              && (var l, key := Route(s, topic, cursor.segment), WalKey(topic, cursor.segment);
                  var kept := if cursor.segment == from.segment then from.delivered else 0;
                  match result
                  case Got(data) =>
                    && l in nodes && Taken(nodes[l], key) < |Fifo(nodes[l], key)|
                    && data == Fifo(nodes[l], key)[Taken(nodes[l], key)]
                    && after == nodes[l := nodes[l].(consumed := nodes[l].consumed[key := Taken(nodes[l], key) + 1])]
                    && cursor.delivered == kept + 1
                  case Nothing =>
                    && after == nodes && cursor.delivered == kept
                    && s.topics[topic].current <= cursor.segment && Exhausted(s, nodes, topic, cursor.segment)
                  case _ => after == nodes && cursor.delivered == kept && l !in nodes)
  {
    cursor, after := start, nodes;
    if topic !in s.topics {
      return UnknownTopic, cursor, after;
    }
    var current := s.topics[topic].current;
    if cursor.segment == 0 {
      cursor := cursor.(segment := 1);
    }
    ghost var from := cursor;
    while true
      invariant after == nodes && from.segment <= cursor.segment
      invariant cursor.delivered == if cursor.segment == from.segment then from.delivered else 0
      invariant forall j :: from.segment <= j < cursor.segment ==> MayLeave(s, nodes, topic, from, j)
      decreases current - cursor.segment
    {
      if cursor.segment < current {
        var sealed := CountOrZero(s, topic, cursor.segment);
        if cursor.delivered >= sealed {
          cursor := Cursor(cursor.segment + 1, 0);
          continue;
        }
      }
      var leader, key := Route(s, topic, cursor.segment), WalKey(topic, cursor.segment);
      if leader !in nodes {
        return Unreachable, cursor, after;
      }
      var node := nodes[leader];
      var k := Taken(node, key);
      if k < |Fifo(node, key)| {
        after := nodes[leader := node.(consumed := node.consumed[key := k + 1])];
        cursor := cursor.(delivered := cursor.delivered + 1);
        return Got(Fifo(node, key)[k]), cursor, after;
      }
      if cursor.segment < current {
        var sealed := CountOrZero(s, topic, cursor.segment);
        if cursor.delivered < sealed {
          cursor := cursor.(delivered := sealed);
        }
        if cursor.delivered >= sealed {
          cursor := Cursor(cursor.segment + 1, 0);
          continue;
        }
      }
      return Nothing, cursor, after;
    }
  }
}
