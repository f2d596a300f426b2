/**
 Delivery across segments: no entry is handed out twice, delivery follows WAL order, and under the
 stated conditions on sealed segments no cursor ever leaves an entry behind. The conditions are what
 the code does not enforce; Lossless has the exact ones, SkippedRuns runs in which an entry is skipped.
 */
module Reading {
  import opened Basics
  import opened Metadata
  import opened WalKeys
  import opened DataPlane
  import opened SingleWriter

  predicate InRange(log: seq<Cmd>, t: string, s: nat) { 1 <= s <= |Leaders(log, t)| }

  /** The segment is closed: a later one is open. */
  predicate Sealed(log: seq<Cmd>, t: string, s: nat) { 1 <= s < |Leaders(log, t)| }

  /** The entries of a segment: those in the WAL of its leader. */
  function Stored(c: Cluster, t: string, s: nat): seq<Payload> {
    if InRange(c.log, t, s) && Leaders(c.log, t)[s - 1] in c.nodes
    then Fifo(c.nodes[Leaders(c.log, t)[s - 1]], WalKey(t, s))
    else []
  }

  /** How many of them the leader's engine has handed out. */
  function Served(c: Cluster, t: string, s: nat): nat {
    if InRange(c.log, t, s) && Leaders(c.log, t)[s - 1] in c.nodes
    then Taken(c.nodes[Leaders(c.log, t)[s - 1]], WalKey(t, s))
    else 0
  }

  /** A reply with an entry for this topic is on its way to the node. */
  function InFlight(node: Node, t: string): nat {
    if node.reading.Some? && node.reading.value.topic == t && node.reading.value.reply.Some?
       && node.reading.value.reply.value.Entry?
    then 1 else 0
  }

  ghost predicate CursorOk(c: Cluster, node: Node, t: string)
    requires t in node.cursors
  {
    var cursor := node.cursors[t];
    && 1 <= cursor.segment <= |Leaders(Prefix(c.log, node), t)|
    && cursor.delivered + InFlight(node, t) <= Served(c, t, cursor.segment)
  }

  ghost predicate ReadOk(c: Cluster, node: Node, r: Read) {
    && r.topic in node.cursors && node.cursors[r.topic].segment == r.segment
    && r.segment <= r.current <= |Leaders(Prefix(c.log, node), r.topic)|
    && Leads(c.log, r.topic, r.segment, r.leader)
  }

  ghost predicate NodeReads(c: Cluster, node: Node) {
    && node.applied <= |c.log|
    && (forall t :: t in node.cursors ==> CursorOk(c, node, t))
    && (node.reading.Some? ==> ReadOk(c, node, node.reading.value))
  }

  ghost predicate EngineOk(c: Cluster) {
    forall n, key :: n in c.nodes ==> Taken(c.nodes[n], key) <= |Fifo(c.nodes[n], key)|
  }

  /** A delivery is the entry at its index in the WAL of the one node that owns its key. */
  ghost predicate Genuine(c: Cluster, d: Delivery, n: NodeId) {
    && n in c.nodes && Owner(c.log, d.key, n)
    && d.index < Taken(c.nodes[n], d.key) <= |Fifo(c.nodes[n], d.key)|
    && Fifo(c.nodes[n], d.key)[d.index] == d.data
  }

  ghost predicate IsGenuine(c: Cluster, d: Delivery) { exists n :: Genuine(c, d, n) }

  ghost predicate Handed(c: Cluster, key: string, index: nat) {
    exists i :: 0 <= i < |c.delivered| && c.delivered[i].key == key && c.delivered[i].index == index
  }

  ghost predicate DeliveriesOk(c: Cluster) {
    && (forall i :: 0 <= i < |c.delivered| ==> IsGenuine(c, c.delivered[i]))
    && (forall i, j :: 0 <= i < j < |c.delivered| && c.delivered[i].key == c.delivered[j].key ==>
          c.delivered[i].index < c.delivered[j].index)
    && (forall n, key, k: nat :: n in c.nodes && k < Taken(c.nodes[n], key) ==> Handed(c, key, k))
  }

  ghost predicate ReadSafe(c: Cluster) {
    && Safe(c) && EngineOk(c) && DeliveriesOk(c)
    && (forall n :: n in c.nodes ==> NodeReads(c, c.nodes[n]))
  }

  // ----- Preservation -----

  lemma ServedGrows(c: Cluster, d: Cluster, t: string, s: nat)
    requires Extends(c, d) && InRange(c.log, t, s)
    ensures InRange(d.log, t, s)
    ensures Served(c, t, s) <= Served(d, t, s) && Stored(c, t, s) <= Stored(d, t, s)
  {
    HistoryGrows(c.log, d.log, t);
    var l := Leaders(c.log, t)[s - 1];
    assert Leaders(d.log, t)[s - 1] == l;
    if l in c.nodes { assert NodeGrows(c.nodes[l], d.nodes[l]); }
  }

  lemma NodeReadsGrows(c: Cluster, d: Cluster, node: Node)
    requires Extends(c, d) && NodeReads(c, node)
    ensures NodeReads(d, node)
  {
    assert Prefix(d.log, node) == Prefix(c.log, node);
    forall t | t in node.cursors ensures CursorOk(d, node, t) {
      assert CursorOk(c, node, t);
      HistoryGrows(Prefix(c.log, node), c.log, t);
      ServedGrows(c, d, t, node.cursors[t].segment);
    }
    if node.reading.Some? { HistoryGrows(c.log, d.log, node.reading.value.topic); }
  }

  /** What a reader's metadata view must say for a read of `topic` to be routed properly. */
  ghost predicate ViewOk(c: Cluster, node: Node, topic: string, s: ClusterState) {
    topic in s.topics ==>
      && s.topics[topic].current == |Leaders(Prefix(c.log, node), topic)| >= 1
      && forall segment :: 1 <= segment <= s.topics[topic].current ==> Leads(c.log, topic, segment, Route(s, topic, segment))
  }

  lemma ReplayedViewOk(c: Cluster, node: Node, topic: string)
    requires node.applied <= |c.log|
    ensures ViewOk(c, node, topic, Replay(Prefix(c.log, node)))
  {
    var p := Prefix(c.log, node);
    ReplayDescribed(p, topic);
    if topic in Replay(p).topics {
      forall segment | 1 <= segment <= Replay(p).topics[topic].current
        ensures Leads(c.log, topic, segment, Route(Replay(p), topic, segment))
      {
        LookupsInRange(p, c.log, topic, segment);
      }
    }
  }

  /** Setting one cursor leaves the others in order. */
  lemma OtherCursorsOk(c: Cluster, node: Node, after: Node, topic: string)
    requires NodeReads(c, node) && node.reading.None? && (after.reading.Some? ==> after.reading.value.reply.None?)
    requires after.applied == node.applied && topic in after.cursors && after.cursors == node.cursors[topic := after.cursors[topic]]
    requires CursorOk(c, after, topic)
    ensures forall t :: t in after.cursors ==> CursorOk(c, after, t)
  {
    forall t | t in after.cursors ensures CursorOk(c, after, t) {
      if t != topic { assert CursorOk(c, node, t); }
    }
  }

  lemma BeginReadOk(c: Cluster, node: Node, topic: string, s: ClusterState)
    requires NodeReads(c, node) && ViewOk(c, node, topic, s)
    ensures NodeReads(c, BeginReadStep(s, node, topic))
  {
    var after := BeginReadStep(s, node, topic);
    if node.reading.None? && topic in s.topics {
      BeginReadFrame(s, node, topic);
      assert topic in node.cursors ==> CursorOk(c, node, topic);
      assert Prefix(c.log, after) == Prefix(c.log, node);
      assert CursorOk(c, after, topic);
      OtherCursorsOk(c, node, after, topic);
    }
  }

  lemma FinishReadOk(c: Cluster, node: Node, s: ClusterState)
    requires NodeReads(c, node)
    ensures NodeReads(c, FinishReadStep(s, node))
  {
    var after := FinishReadStep(s, node);
    FinishReadFrame(s, node);
    assert Prefix(c.log, after) == Prefix(c.log, node);
    forall t | t in after.cursors ensures CursorOk(c, after, t) {
      if t in node.cursors { assert CursorOk(c, node, t); }
    }
  }

  lemma LocalReads(c: Cluster, n: NodeId, node: Node, step: Local)
    requires NodeReads(c, node)
    ensures NodeReads(c, LocalStep(c.log, n, node, step))
  {
    var s := Replay(Prefix(c.log, node));
    match step
    case BeginRead(topic) =>
      ReplayedViewOk(c, node, topic);
      BeginReadOk(c, node, topic, s);
    case FinishRead => FinishReadOk(c, node, s);
    case Restart(_) =>
    case _ =>
      OtherStepFrame(s, |c.log|, n, node, step);
      LaterReads(c, node, LocalStep(c.log, n, node, step));
  }

  lemma LaterReads(c: Cluster, node: Node, after: Node)
    requires NodeReads(c, node)
    requires after.cursors == node.cursors && after.reading == node.reading
    requires node.applied <= after.applied <= |c.log|
    ensures NodeReads(c, after)
  {
    var p, q := Prefix(c.log, node), Prefix(c.log, after);
    assert p <= q;
    forall t | t in after.cursors ensures CursorOk(c, after, t) {
      assert CursorOk(c, node, t);
      HistoryGrows(p, q, t);
    }
    if node.reading.Some? { HistoryGrows(p, q, node.reading.value.topic); }
  }

  lemma GenuineGrows(c: Cluster, d: Cluster, x: Delivery, n: NodeId)
    requires Extends(c, d) && EngineOk(d) && Genuine(c, x, n)
    ensures Genuine(d, x, n)
  {
    OwnerStable(c.log, d.log, x.key, n);
    assert NodeGrows(c.nodes[n], d.nodes[n]);
  }

  /** A step that hands nothing out keeps the delivery record in order. */
  lemma DeliveriesKept(c: Cluster, d: Cluster)
    requires Extends(c, d) && EngineOk(d) && DeliveriesOk(c)
    requires d.delivered == c.delivered
    requires forall n :: n in d.nodes ==> d.nodes[n].consumed == c.nodes[n].consumed
    ensures DeliveriesOk(d)
  {
    forall i | 0 <= i < |d.delivered| ensures IsGenuine(d, d.delivered[i]) {
      assert IsGenuine(c, c.delivered[i]);
      var n :| Genuine(c, c.delivered[i], n);
      GenuineGrows(c, d, d.delivered[i], n);
    }
    forall n, key, k: nat | n in d.nodes && k < Taken(d.nodes[n], key) ensures Handed(d, key, k) {
      assert k < Taken(c.nodes[n], key);
      assert Handed(c, key, k);
    }
  }

  /** The leader's engine has an entry for the outstanding read. */
  predicate HandsOut(c: Cluster, reader: NodeId, r: Read) {
    && reader in c.nodes && c.nodes[reader].reading == Some(r) && r.reply.None? && r.leader in c.nodes
    && Taken(c.nodes[r.leader], WalKey(r.topic, r.segment)) < |Fifo(c.nodes[r.leader], WalKey(r.topic, r.segment))|
  }

  /** What handing out changes: one read position, one delivery record, one reply. */
  lemma HandOutShape(c: Cluster, reader: NodeId, r: Read)
    requires HandsOut(c, reader, r)
    ensures var d, key := Serve(c, reader), WalKey(r.topic, r.segment);
            var k := Taken(c.nodes[r.leader], key);
            && d.log == c.log && d.nodes.Keys == c.nodes.Keys
            && d.delivered == c.delivered + [Delivery(reader, key, k, Fifo(c.nodes[r.leader], key)[k])]
            && (forall n, y :: n in d.nodes ==>
                  && Fifo(d.nodes[n], y) == Fifo(c.nodes[n], y)
                  && Taken(d.nodes[n], y) == if n == r.leader && y == key then k + 1 else Taken(c.nodes[n], y))
  {
  }

  lemma NoHandOutShape(c: Cluster, reader: NodeId)
    requires forall r :: !HandsOut(c, reader, r)
    ensures var d := Serve(c, reader);
            && d.delivered == c.delivered && d.nodes.Keys == c.nodes.Keys
            && forall n :: n in d.nodes ==> d.nodes[n].consumed == c.nodes[n].consumed && d.nodes[n].wal == c.nodes[n].wal
  {
    if reader in c.nodes && c.nodes[reader].reading.Some? {
      assert !HandsOut(c, reader, c.nodes[reader].reading.value);
    }
  }

  /** An earlier delivery, after more has been handed out under `key`. */
  lemma EarlierDelivery(c: Cluster, d: Cluster, i: nat, key: string, l: NodeId)
    requires Extends(c, d) && EngineOk(d) && i < |c.delivered| && IsGenuine(c, c.delivered[i])
    requires Owner(c.log, key, l) && l in c.nodes
    ensures IsGenuine(d, c.delivered[i])
    ensures c.delivered[i].key == key ==> c.delivered[i].index < Taken(c.nodes[l], key)
  {
    var n :| Genuine(c, c.delivered[i], n);
    GenuineGrows(c, d, c.delivered[i], n);
    if c.delivered[i].key == key { OwnerUnique(c.log, key, n, l); }
  }

  lemma HandOutEngine(c: Cluster, reader: NodeId, r: Read)
    requires EngineOk(c) && HandsOut(c, reader, r)
    ensures EngineOk(Serve(c, reader))
  {
    HandOutShape(c, reader, r);
    var d := Serve(c, reader);
    forall n, key | n in d.nodes ensures Taken(d.nodes[n], key) <= |Fifo(d.nodes[n], key)| {
      assert Taken(c.nodes[n], key) <= |Fifo(c.nodes[n], key)|;
    }
  }

  /** The engine's answer with an entry. */
  lemma HandOutOk(c: Cluster, reader: NodeId, r: Read)
    requires ReadSafe(c) && HandsOut(c, reader, r)
    ensures EngineOk(Serve(c, reader)) && DeliveriesOk(Serve(c, reader))
  {
    var d, key, l := Serve(c, reader), WalKey(r.topic, r.segment), r.leader;
    HandOutShape(c, reader, r);
    HandOutEngine(c, reader, r);
    ExecExtends(c, ServeRead(reader));
    assert Owner(c.log, key, l) by { assert NodeReads(c, c.nodes[reader]); }
    HandOutComplete(c, reader, r);
    HandOutOrdered(c, d, key, l, d.delivered[|c.delivered|]);
  }

  lemma HandOutOrdered(c: Cluster, d: Cluster, key: string, l: NodeId, latest: Delivery)
    requires DeliveriesOk(c) && Extends(c, d) && EngineOk(d) && Owner(c.log, key, l) && l in c.nodes
    requires d.delivered == c.delivered + [latest] && d.log == c.log
    requires latest.key == key && latest.index == Taken(c.nodes[l], key) < Taken(d.nodes[l], key)
    requires latest.index < |Fifo(d.nodes[l], key)| && Fifo(d.nodes[l], key)[latest.index] == latest.data
    requires forall n, y, j: nat :: n in d.nodes && j < Taken(d.nodes[n], y) ==> Handed(d, y, j)
    ensures DeliveriesOk(d)
  {
    assert Genuine(d, latest, l);
    forall i | 0 <= i < |c.delivered|
      ensures IsGenuine(d, c.delivered[i])
      ensures c.delivered[i].key == key ==> c.delivered[i].index < latest.index
    {
      assert IsGenuine(c, c.delivered[i]);
      EarlierDelivery(c, d, i, key, l);
    }
    OrderedAppend(c.delivered, latest);
    forall i | 0 <= i < |d.delivered| ensures IsGenuine(d, d.delivered[i]) {
      assert d.delivered[i] == if i < |c.delivered| then c.delivered[i] else latest;
    }
  }

  lemma OrderedAppend(ds: seq<Delivery>, latest: Delivery)
    requires forall i, j :: 0 <= i < j < |ds| && ds[i].key == ds[j].key ==> ds[i].index < ds[j].index
    requires forall i :: 0 <= i < |ds| && ds[i].key == latest.key ==> ds[i].index < latest.index
    ensures var after := ds + [latest];
            forall i, j :: 0 <= i < j < |after| && after[i].key == after[j].key ==> after[i].index < after[j].index
  {
  }

  lemma HandOutComplete(c: Cluster, reader: NodeId, r: Read)
    requires DeliveriesOk(c) && HandsOut(c, reader, r)
    ensures var d := Serve(c, reader);
            forall n, y, j: nat :: n in d.nodes && j < Taken(d.nodes[n], y) ==> Handed(d, y, j)
  {
    var d, key := Serve(c, reader), WalKey(r.topic, r.segment);
    HandOutShape(c, reader, r);
    var k := Taken(c.nodes[r.leader], key);
    forall n, y, j: nat | n in d.nodes && j < Taken(d.nodes[n], y) ensures Handed(d, y, j) {
      if n == r.leader && y == key && j == k {
        assert d.delivered[|c.delivered|].index == k;
      } else {
        assert Handed(c, y, j);
        var i :| 0 <= i < |c.delivered| && c.delivered[i].key == y && c.delivered[i].index == j;
        assert d.delivered[i] == c.delivered[i];
      }
    }
  }

  lemma ServeDeliveries(c: Cluster, reader: NodeId)
    requires ReadSafe(c)
    ensures EngineOk(Serve(c, reader)) && DeliveriesOk(Serve(c, reader))
  {
    if r :| HandsOut(c, reader, r) {
      HandOutOk(c, reader, r);
    } else {
      NoHandOutShape(c, reader);
      ExecExtends(c, ServeRead(reader));
      var d := Serve(c, reader);
      assert forall n, y :: n in d.nodes ==> Taken(d.nodes[n], y) == Taken(c.nodes[n], y) && Fifo(d.nodes[n], y) == Fifo(c.nodes[n], y);
      DeliveriesKept(c, d);
    }
  }

  /** What serving does to the nodes' reading state. */
  lemma ServeFrame(c: Cluster, reader: NodeId, n: NodeId)
    requires n in c.nodes
    ensures var a, b := c.nodes[n], Serve(c, reader).nodes[n];
            && b == a.(consumed := b.consumed, reading := b.reading)
            && (b.reading != a.reading ==>
                  && n == reader && a.reading.Some? && a.reading.value.reply.None? && b.reading.Some?
                  && b.reading.value == a.reading.value.(reply := b.reading.value.reply) && b.reading.value.reply.Some?
                  && (b.reading.value.reply.value.Entry? <==> HandsOut(c, reader, a.reading.value))
                  && a.reading.value.leader in c.nodes)
  {
  }

  lemma ServeReads(c: Cluster, reader: NodeId)
    requires ReadSafe(c)
    ensures ReadSafe(Serve(c, reader))
  {
    var d := Serve(c, reader);
    ServeSafe(c, reader);
    ServeDeliveries(c, reader);
    ExecExtends(c, ServeRead(reader));
    forall n | n in d.nodes ensures NodeReads(d, d.nodes[n]) {
      NodeReadsGrows(c, d, c.nodes[n]);
      ServeFrame(c, reader, n);
      ServedNodeReads(c, reader, n);
    }
  }

  lemma ServedNodeReads(c: Cluster, reader: NodeId, n: NodeId)
    requires ReadSafe(c) && n in c.nodes && n in Serve(c, reader).nodes && NodeReads(Serve(c, reader), c.nodes[n])
    ensures NodeReads(Serve(c, reader), Serve(c, reader).nodes[n])
  {
    var d := Serve(c, reader);
    var a, b := c.nodes[n], d.nodes[n];
    ServeFrame(c, reader, n);
    assert Prefix(d.log, b) == Prefix(d.log, a);
    assert NodeReads(c, a);
    forall t | t in b.cursors ensures CursorOk(d, b, t) {
      assert CursorOk(c, a, t) && CursorOk(d, a, t);
      if InFlight(b, t) > InFlight(a, t) {
        var r := a.reading.value;
        HandOutShape(c, reader, r);
        assert Served(d, t, r.segment) == Served(c, t, r.segment) + 1;
      }
    }
  }

  lemma ExecReads(c: Cluster, a: Action)
    requires ReadSafe(c)
    ensures ReadSafe(Exec(c, a))
  {
    var d := Exec(c, a);
    if a.ServeRead? {
      ServeReads(c, a.reader);
      return;
    }
    ExecSafe(c, a);
    ExecExtends(c, a);
    if a.At? && a.node in c.nodes { LocalGrows(c.log, a.node, c.nodes[a.node], a.step); }
    forall n, key | n in d.nodes ensures Taken(d.nodes[n], key) <= |Fifo(d.nodes[n], key)| {
      assert NodeGrows(c.nodes[n], d.nodes[n]);
    }
    DeliveriesKept(c, d);
    forall n | n in d.nodes ensures NodeReads(d, d.nodes[n]) {
      NodeReadsGrows(c, d, c.nodes[n]);
      if a.At? && n == a.node { LocalReads(d, n, c.nodes[n], a.step); }
    }
  }

  lemma {:induction false} RunReads(ids: set<NodeId>, acts: seq<Action>)
    ensures ReadSafe(Run(Init(ids), acts))
  {
    if acts == [] {
      RunSafe(ids, acts);
    } else {
      RunReads(ids, Front(acts));
      ExecReads(Run(Init(ids), Front(acts)), Last(acts));
    }
  }

  // ----- No duplication, WAL order -----

  /** In every run, with any number of readers and any restarts: what has been handed out of a segment
      is exactly the consumed front of its WAL, each entry once and in WAL order. */
  lemma DeliveredOnceInOrder(ids: set<NodeId>, acts: seq<Action>, i: nat, j: nat)
    requires var c := Run(Init(ids), acts);
             i < j < |c.delivered| && c.delivered[i].key == c.delivered[j].key
    ensures var c := Run(Init(ids), acts);
            && c.delivered[i].index < c.delivered[j].index
            && exists n :: Genuine(c, c.delivered[i], n) && Genuine(c, c.delivered[j], n)
  {
    RunReads(ids, acts);
    var c := Run(Init(ids), acts);
    var n :| Genuine(c, c.delivered[i], n);
    var m :| Genuine(c, c.delivered[j], m);
    OwnerUnique(c.log, c.delivered[i].key, n, m);
  }

  // ----- No loss -----

  /** The sealed count on record is at least the number of stored entries. */
  ghost predicate Covered(c: Cluster, t: string, s: nat) {
    Sealed(c.log, t, s) ==> |Counts(c.log, t)| + 1 == |Leaders(c.log, t)| && |Stored(c, t, s)| <= Counts(c.log, t)[s - 1]
  }

  ghost predicate CountsCover(c: Cluster) { forall t, s :: Covered(c, t, s) }

  predicate Drained(c: Cluster, t: string, s: nat) { Served(c, t, s) == |Stored(c, t, s)| }

  ghost predicate SealedKey(log: seq<Cmd>, key: string) {
    exists t, s :: key == WalKey(t, s) && Sealed(log, t, s)
  }

  /** The step commits a rollover of `t`. */
  predicate Rolls(c: Cluster, a: Action, t: string) {
    a.Commit? && a.cmd.RolloverTopic? && a.cmd.name == t && Leaders(c.log, t) != []
  }

  /** The step writes an entry under `key`. */
  predicate Writes(c: Cluster, a: Action, key: string) {
    && a.At? && a.node in c.nodes && a.step.WriteEntry?
    && a.step.id in c.nodes[a.node].appends
    && c.nodes[a.node].appends[a.step.id].phase == Locked
    && c.nodes[a.node].appends[a.step.id].key == key
  }

  /** What the code leaves to circumstance: a rollover that commits carries a count no smaller than the
      segment it really seals, and no append that passed its lease check writes after the sealing. */
  ghost predicate GoodStep(c: Cluster, a: Action) {
    && (forall t :: Rolls(c, a, t) ==> |Stored(c, t, |Leaders(c.log, t)|)| <= a.cmd.count)
    && (forall key :: Writes(c, a, key) ==> !SealedKey(c.log, key))
  }

  ghost predicate GoodRun(c: Cluster, acts: seq<Action>) {
    forall i :: 0 <= i < |acts| ==> GoodStep(Run(c, acts[..i]), acts[i])
  }

  ghost predicate NodeKept(c: Cluster, node: Node) {
    && (forall t, s :: t in node.cursors && 1 <= s < node.cursors[t].segment ==> Drained(c, t, s))
    && (forall t :: FoundEmpty(node, t) ==> Drained(c, t, node.reading.value.segment))
  }

  ghost predicate NothingLost(c: Cluster) {
    CountsCover(c) && forall n :: n in c.nodes ==> NodeKept(c, c.nodes[n])
  }

  /** A step appends to one WAL of one node, or to none. */
  lemma FifoStep(c: Cluster, a: Action, n: NodeId, key: string)
    requires n in c.nodes
    ensures n in Exec(c, a).nodes
    ensures !(Writes(c, a, key) && a.node == n) ==> Fifo(Exec(c, a).nodes[n], key) == Fifo(c.nodes[n], key)
    ensures Writes(c, a, key) && a.node == n ==> |Fifo(Exec(c, a).nodes[n], key)| == |Fifo(c.nodes[n], key)| + 1
  {
    match a
    case Commit(_) =>
    case ServeRead(reader) => ServeFrame(c, reader, n);
    case At(m, step) => if m == n && !step.WriteEntry? { LocalGrows(c.log, n, c.nodes[n], step); }
  }

  /** How a step changes what is stored for a segment in range. */
  lemma StoredStep(c: Cluster, a: Action, t: string, s: nat)
    requires Safe(c) && InRange(c.log, t, s)
    ensures InRange(Exec(c, a).log, t, s)
    ensures !Writes(c, a, WalKey(t, s)) ==> Stored(Exec(c, a), t, s) == Stored(c, t, s)
    ensures Writes(c, a, WalKey(t, s)) ==> |Stored(Exec(c, a), t, s)| == |Stored(c, t, s)| + 1
  {
    var d, key := Exec(c, a), WalKey(t, s);
    ExecExtends(c, a);
    HistoryGrows(c.log, d.log, t);
    var l := Leaders(c.log, t)[s - 1];
    assert Leaders(d.log, t)[s - 1] == l && Owner(c.log, key, l);
    if Writes(c, a, key) { WriterOwns(c, a, key, l); }
    if l in c.nodes { FifoStep(c, a, l, key); }
  }

  lemma WriterOwns(c: Cluster, a: Action, key: string, l: NodeId)
    requires Safe(c) && Writes(c, a, key) && Owner(c.log, key, l)
    ensures a.node == l
  {
    assert NodeSafe(c.log, a.node, c.nodes[a.node]) && Touches(c.nodes[a.node], key);
    OwnerUnique(c.log, key, l, a.node);
  }

  /** A drained segment stays drained until something is written to it. */
  lemma DrainedHolds(c: Cluster, a: Action, t: string, s: nat)
    requires ReadSafe(c) && InRange(c.log, t, s) && Drained(c, t, s) && !Writes(c, a, WalKey(t, s))
    ensures Drained(Exec(c, a), t, s)
  {
    var d := Exec(c, a);
    StoredStep(c, a, t, s);
    ExecExtends(c, a);
    ServedGrows(c, d, t, s);
    ExecReads(c, a);
  }

  lemma DrainedStays(c: Cluster, a: Action, t: string, s: nat)
    requires ReadSafe(c) && GoodStep(c, a) && Sealed(c.log, t, s) && Drained(c, t, s)
    ensures Drained(Exec(c, a), t, s)
  {
    if Writes(c, a, WalKey(t, s)) { assert SealedKey(c.log, WalKey(t, s)); }
    DrainedHolds(c, a, t, s);
  }

  lemma CoverStep(c: Cluster, a: Action)
    requires ReadSafe(c) && GoodStep(c, a) && CountsCover(c)
    ensures CountsCover(Exec(c, a))
  {
    var d := Exec(c, a);
    ExecExtends(c, a);
    forall t, s ensures Covered(d, t, s) {
      if Sealed(d.log, t, s) {
        ReplayDescribed(d.log, t);
        HistoryGrows(c.log, d.log, t);
        if Sealed(c.log, t, s) {
          assert Covered(c, t, s);
          if Writes(c, a, WalKey(t, s)) { assert SealedKey(c.log, WalKey(t, s)); }
          StoredStep(c, a, t, s);
        } else {
          NewlySealed(c, a, t, s);
          StoredStep(c, a, t, s);
        }
      }
    }
  }

  /** Only a committed rollover seals, and it seals the open segment with the count it carries. */
  lemma NewlySealed(c: Cluster, a: Action, t: string, s: nat)
    requires !Sealed(c.log, t, s) && Sealed(Exec(c, a).log, t, s)
    ensures Rolls(c, a, t) && s == |Leaders(c.log, t)|
    ensures Counts(Exec(c, a).log, t) == Counts(c.log, t) + [a.cmd.count] && |Counts(c.log, t)| == s - 1
  {
    ReplayDescribed(c.log, t);
    if a.Commit? {
      assert Front(c.log + [a.cmd]) == c.log;
    }
  }

  /** A cursor that leaves because it has counted the segment out leaves nothing behind. */
  lemma LeaveByCount(c: Cluster, node: Node, topic: string)
    requires ReadSafe(c) && CountsCover(c) && NodeReads(c, node)
    requires node.reading.None? && topic in Replay(Prefix(c.log, node)).topics
    requires CountedOut(Replay(Prefix(c.log, node)), topic, StartCursor(node.cursors, topic))
    ensures Sealed(c.log, topic, StartCursor(node.cursors, topic).segment)
    ensures Drained(c, topic, StartCursor(node.cursors, topic).segment)
  {
    var p, cursor := Prefix(c.log, node), StartCursor(node.cursors, topic);
    assert topic in node.cursors ==> CursorOk(c, node, topic);
    ReplayDescribed(p, topic);
    ReplayDescribed(c.log, topic);
    HistoryGrows(p, c.log, topic);
    LookupsInRange(p, c.log, topic, cursor.segment);
    assert Covered(c, topic, cursor.segment);
    if Leaders(c.log, topic)[cursor.segment - 1] in c.nodes {
      assert Taken(c.nodes[Leaders(c.log, topic)[cursor.segment - 1]], WalKey(topic, cursor.segment))
          <= |Fifo(c.nodes[Leaders(c.log, topic)[cursor.segment - 1]], WalKey(topic, cursor.segment))|;
    }
  }

  lemma BeginReadKeeps(c: Cluster, node: Node, topic: string, s: ClusterState)
    requires NodeReads(c, node) && NodeKept(c, node)
    requires node.reading.None? && topic in s.topics && CountedOut(s, topic, StartCursor(node.cursors, topic)) ==>
               Drained(c, topic, StartCursor(node.cursors, topic).segment)
    ensures NodeKept(c, BeginReadStep(s, node, topic))
  {
    var after := BeginReadStep(s, node, topic);
    assert topic in node.cursors ==> CursorOk(c, node, topic);
    forall t, j | t in after.cursors && 1 <= j < after.cursors[t].segment ensures Drained(c, t, j) {
      if t in node.cursors && j < node.cursors[t].segment {}
    }
  }

  /** Cursors that move on only from segments found empty leave nothing behind. */
  lemma MovedKeeps(c: Cluster, node: Node, after: Node)
    requires NodeReads(c, node) && NodeKept(c, node)
    requires after.reading.None? || after.reading == node.reading
    requires forall t :: t in after.cursors ==>
               t in node.cursors && after.cursors[t].segment == node.cursors[t].segment + if FoundEmpty(node, t) then 1 else 0
    ensures NodeKept(c, after)
  {
    forall t, j | t in after.cursors && 1 <= j < after.cursors[t].segment ensures Drained(c, t, j) {
      if j == node.cursors[t].segment { assert FoundEmpty(node, t); }
    }
  }

  lemma FinishReadKeeps(c: Cluster, node: Node, s: ClusterState)
    requires NodeReads(c, node) && NodeKept(c, node)
    ensures NodeKept(c, FinishReadStep(s, node))
  {
    FinishReadEnds(s, node);
    var after := FinishReadStep(s, node);
    forall t | t in after.cursors
      ensures t in node.cursors && after.cursors[t].segment == node.cursors[t].segment + if FoundEmpty(node, t) then 1 else 0
    {
      FinishReadShape(s, node, t);
    }
    MovedKeeps(c, node, after);
  }

  /** What a node relies on survives a step of the cluster, as long as the node itself did not move. */
  lemma NodeKeptStays(c: Cluster, a: Action, node: Node)
    requires ReadSafe(c) && GoodStep(c, a) && NodeReads(c, node) && NodeKept(c, node)
    ensures NodeKept(Exec(c, a), node)
  {
    forall t, s | t in node.cursors && 1 <= s < node.cursors[t].segment ensures Drained(Exec(c, a), t, s) {
      assert CursorOk(c, node, t);
      HistoryGrows(Prefix(c.log, node), c.log, t);
      DrainedStays(c, a, t, s);
    }
    if node.reading.Some? {
      var r := node.reading.value;
      assert CursorOk(c, node, r.topic);
      HistoryGrows(Prefix(c.log, node), c.log, r.topic);
      if FoundEmpty(node, r.topic) { DrainedStays(c, a, r.topic, r.segment); }
    }
  }

  /** An empty answer about a sealed segment was given when everything in it had been handed out. */
  lemma ServeKeeps(c: Cluster, reader: NodeId, n: NodeId)
    requires ReadSafe(c) && n in c.nodes && NodeKept(c, c.nodes[n])
    ensures NodeKept(Serve(c, reader), Serve(c, reader).nodes[n])
  {
    var a, b := c.nodes[n], Serve(c, reader).nodes[n];
    assert NodeReads(c, a);
    NodeKeptStays(c, ServeRead(reader), a);
    ServeFrame(c, reader, n);
  }

  lemma ExecKeeps(c: Cluster, a: Action)
    requires ReadSafe(c) && GoodStep(c, a) && NothingLost(c)
    ensures NothingLost(Exec(c, a))
  {
    var d := Exec(c, a);
    CoverStep(c, a);
    ExecReads(c, a);
    ExecExtends(c, a);
    forall n | n in d.nodes ensures NodeKept(d, d.nodes[n]) {
      ExecKeepsNode(c, a, n);
    }
  }

  lemma ExecKeepsNode(c: Cluster, a: Action, n: NodeId)
    requires ReadSafe(c) && GoodStep(c, a) && n in c.nodes && NodeReads(c, c.nodes[n]) && NodeKept(c, c.nodes[n])
    requires ReadSafe(Exec(c, a)) && CountsCover(Exec(c, a)) && Extends(c, Exec(c, a))
    ensures NodeKept(Exec(c, a), Exec(c, a).nodes[n])
  {
    if a.ServeRead? {
      ServeKeeps(c, a.reader, n);
    } else {
      NodeKeptStays(c, a, c.nodes[n]);
      NodeReadsGrows(c, Exec(c, a), c.nodes[n]);
      if a.At? && n == a.node { LocalKeeps(Exec(c, a), n, c.nodes[n], a.step); }
    }
  }

  lemma LocalKeeps(c: Cluster, n: NodeId, node: Node, step: Local)
    requires ReadSafe(c) && CountsCover(c) && NodeReads(c, node) && NodeKept(c, node)
    ensures NodeKept(c, LocalStep(c.log, n, node, step))
  {
    var s := Replay(Prefix(c.log, node));
    if step.BeginRead? && node.reading.None? && step.topic in s.topics && CountedOut(s, step.topic, StartCursor(node.cursors, step.topic)) {
      LeaveByCount(c, node, step.topic);
    }
    StepKeeps(c, n, node, step, s);
  }

  lemma StepKeeps(c: Cluster, n: NodeId, node: Node, step: Local, s: ClusterState)
    requires NodeReads(c, node) && NodeKept(c, node)
    requires step.BeginRead? && node.reading.None? && step.topic in s.topics && CountedOut(s, step.topic, StartCursor(node.cursors, step.topic)) ==>
               Drained(c, step.topic, StartCursor(node.cursors, step.topic).segment)
    ensures NodeKept(c, StepWith(s, |c.log|, n, node, step))
  {
    match step
    case BeginRead(topic) => BeginReadKeeps(c, node, topic, s);
    case FinishRead => FinishReadKeeps(c, node, s);
    case Restart(_) =>
    case _ => OtherStepFrame(s, |c.log|, n, node, step);
  }

  lemma {:induction false} RunKeeps(ids: set<NodeId>, acts: seq<Action>)
    requires GoodRun(Init(ids), acts)
    ensures NothingLost(Run(Init(ids), acts))
  {
    RunReads(ids, acts);
    if acts == [] {
      assert forall t, s :: Covered(Init(ids), t, s);
    } else {
      var p := Front(acts);
      assert forall i :: 0 <= i < |p| ==> p[..i] == acts[..i];
      RunKeeps(ids, p);
      RunReads(ids, p);
      assert GoodStep(Run(Init(ids), acts[..|p|]), acts[|p|]) && acts[..|p|] == p;
      ExecKeeps(Run(Init(ids), p), Last(acts));
    }
  }

  // ----- Steps that touch no engine -----

  /** Nothing has been written or handed out, and the node has applied no more. */
  ghost predicate StoresStand(c: Cluster, d: Cluster, n: NodeId) {
    && d.log == c.log && d.nodes.Keys == c.nodes.Keys && d.delivered == c.delivered
    && (forall m :: m in c.nodes ==> d.nodes[m].wal == c.nodes[m].wal && d.nodes[m].consumed == c.nodes[m].consumed)
    && (n in c.nodes ==> d.nodes[n].applied == c.nodes[n].applied)
  }

  lemma StandsStored(c: Cluster, d: Cluster, n: NodeId, t: string, s: nat)
    requires StoresStand(c, d, n)
    ensures Stored(d, t, s) == Stored(c, t, s) && Served(d, t, s) == Served(c, t, s)
  {
    if InRange(c.log, t, s) && Leaders(c.log, t)[s - 1] in c.nodes {
      var l := Leaders(c.log, t)[s - 1];
      assert d.nodes[l].wal == c.nodes[l].wal;
    }
  }

  lemma BeginStands(c: Cluster, n: NodeId, t: string)
    requires n in c.nodes
    ensures StoresStand(c, Exec(c, At(n, BeginRead(t))), n)
  {
    BeginReadFrame(Replay(Prefix(c.log, c.nodes[n])), c.nodes[n], t);
  }

  lemma FinishStands(c: Cluster, n: NodeId)
    requires n in c.nodes
    ensures StoresStand(c, Exec(c, At(n, FinishRead)), n)
  {
    FinishReadFrame(Replay(Prefix(c.log, c.nodes[n])), c.nodes[n]);
  }
}
