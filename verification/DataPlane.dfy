/**
 The distributed data plane as a transition system: one agreed command log, nodes that have applied
 their own prefix of it, lease sets installed late and out of order, appends taken apart into their
 real sub-steps, and read cursors that walk the segments
 (distributed-walrus/src/controller/mod.rs, controller/internal.rs, bucket.rs, metadata.rs).

 Every action is a total function of the state; an action that is not possible in a state leaves the
 state alone. Hence every list of actions is a run.
 */
module DataPlane {
  import opened Basics
  import opened Metadata
  import opened WalKeys

  type Payload = string

  /** How far an append has got: the lease check, the per-key lock, the WAL write and the unlock. */
  datatype Phase = Checked | Locked | Written | Released

  datatype Append = Append(key: string, data: Payload, phase: Phase)

  datatype Cursor = Cursor(segment: nat, delivered: nat)

  datatype Reply = Empty | Entry(data: Payload)

  /** A read in progress: where it was routed, the open segment seen then, and the leader's answer. */
  datatype Read = Read(topic: string, segment: nat, current: nat, leader: NodeId, reply: Option<Reply>)

  datatype Node = Node(
    applied: nat,                     // length of the applied log prefix
    computed: set<set<string>>,       // lease sets computed at some point, possibly not installed yet
    leases: set<string>,
    appends: map<nat, Append>,        // appends in flight, by request number
    locks: map<string, nat>,          // write lock of a key -> the append that holds it
    offsets: map<string, nat>,        // tracked entry counts
    wal: map<string, seq<Payload>>,   // the engine: a FIFO per key ...
    consumed: map<string, nat>,       // ... with a persistent read position
    cursors: map<string, Cursor>,     // shared read cursor of each topic
    reading: Option<Read>)

  /** An entry handed out by the engine of a segment's leader to a reader. */
  datatype Delivery = Delivery(reader: NodeId, key: string, index: nat, data: Payload)

  datatype Cluster = Cluster(log: seq<Cmd>, nodes: map<NodeId, Node>, delivered: seq<Delivery>)

  datatype Local =
    | ApplyNext
    | ComputeLeases
    | InstallLeases(keys: set<string>)
    | CheckLease(id: nat, key: string, data: Payload)
    | TakeLock(id: nat)
    | WriteEntry(id: nat)
    | ReleaseLock(id: nat)
    | CountAppend(id: nat)
    | BeginRead(topic: string)
    | FinishRead
    | Restart(applied: nat)

  datatype Action =
    | Commit(cmd: Cmd)
    | At(node: NodeId, step: Local)
    | ServeRead(reader: NodeId)

  const FRESH := Node(0, {}, {}, map[], map[], map[], map[], map[], map[], None)

  function Init(ids: set<NodeId>): Cluster {
    Cluster([], map n | n in ids :: FRESH, [])
  }

  function Fifo(node: Node, key: string): seq<Payload> { Get(node.wal, key, []) }

  function Taken(node: Node, key: string): nat { Get(node.consumed, key, 0) }

  /** The lease set `update_leases` computes from a metadata state. */
  function LeaseSet(s: ClusterState, n: NodeId): set<string> {
    set p | p in Owned(s, n) :: WalKey(p.0, p.1)
  }

  /** The applied prefix of a node's log. */
  function Prefix(log: seq<Cmd>, node: Node): seq<Cmd> {
    if node.applied <= |log| then log[..node.applied] else log
  }

  /** The node a cursor's segment is read from. */
  function Route(s: ClusterState, topic: string, segment: nat): NodeId
    requires topic in s.topics
  {
    if segment == s.topics[topic].current then s.topics[topic].leader
    else
      match SegmentLeader(s, topic, segment)
      case Some(leader) => leader
      case None => s.topics[topic].leader
  }

  function CountOrZero(s: ClusterState, topic: string, segment: nat): nat {
    match SealedCount(s, topic, segment)
    case Some(count) => count
    case None => 0
  }

  /** The cursor a read starts from: segment 0 means "from the beginning". */
  function StartCursor(cursors: map<string, Cursor>, topic: string): Cursor {
    var cursor := Get(cursors, topic, Cursor(0, 0));
    if cursor.segment == 0 then cursor.(segment := 1) else cursor
  }

  predicate CountedOut(s: ClusterState, topic: string, cursor: Cursor)
    requires topic in s.topics
  {
    cursor.segment < s.topics[topic].current && cursor.delivered >= CountOrZero(s, topic, cursor.segment)
  }

  /** One loop iteration of `read_one_for_topic` up to the request. */
  function BeginReadStep(s: ClusterState, node: Node, topic: string): Node {
    if node.reading.Some? || topic !in s.topics then node
    else
      var cursor := StartCursor(node.cursors, topic);
      if CountedOut(s, topic, cursor) then
        node.(cursors := node.cursors[topic := Cursor(cursor.segment + 1, 0)])
      else
        node.(cursors := node.cursors[topic := cursor],
              reading := Some(Read(topic, cursor.segment, s.topics[topic].current, Route(s, topic, cursor.segment), None)))
  }

  /** The cursor after a reply: one entry further, or on to the next segment when a sealed one is empty. */
  function NextCursor(cursor: Cursor, segment: nat, current: nat, reply: Reply, count: nat): Cursor {
    if reply.Entry? then Cursor(cursor.segment, cursor.delivered + 1)
    else if segment < current then
      var delivered := if cursor.delivered < count then count else cursor.delivered;
      if delivered >= count then Cursor(cursor.segment + 1, 0) else Cursor(cursor.segment, delivered)
    else cursor
  }

  /** The rest of the iteration, once the reply is there. */
  function FinishReadStep(s: ClusterState, node: Node): Node {
    if node.reading.None? || node.reading.value.reply.None? then node
    else
      var r := node.reading.value;
      var cursor := Get(node.cursors, r.topic, Cursor(r.segment, 0));
      var next := NextCursor(cursor, r.segment, r.current, r.reply.value, CountOrZero(s, r.topic, r.segment));
      node.(cursors := node.cursors[r.topic := next], reading := None)
  }

  function Advance(node: Node, id: nat, phase: Phase): Node
    requires id in node.appends
  {
    node.(appends := node.appends[id := node.appends[id].(phase := phase)])
  }

  function AppendStep(node: Node, step: Local): Node {
    match step
    case CheckLease(id, key, data) =>
      if id !in node.appends && key in node.leases
      then node.(appends := node.appends[id := Append(key, data, Checked)]) else node
    case TakeLock(id) =>
      if id in node.appends && node.appends[id].phase == Checked && node.appends[id].key !in node.locks
      then Advance(node, id, Locked).(locks := node.locks[node.appends[id].key := id]) else node
    case WriteEntry(id) =>
      if id in node.appends && node.appends[id].phase == Locked then
        var op := node.appends[id];
        Advance(node, id, Written).(wal := node.wal[op.key := Fifo(node, op.key) + [op.data]])
      else node
    case ReleaseLock(id) =>
      if id in node.appends && node.appends[id].phase == Written
      then Advance(node, id, Released).(locks := node.locks - {node.appends[id].key}) else node
    case CountAppend(id) =>
      if id in node.appends && node.appends[id].phase == Released then
        var key := node.appends[id].key;
        node.(appends := node.appends - {id}, offsets := node.offsets[key := Get(node.offsets, key, 0) + 1])
      else node
    case _ => node
  }

  /** A restart loses everything but the engine. It waits for a reply that carries an entry: losing
      such a reply is outside this model. */
  function RestartStep(node: Node, applied: nat): Node {
    if node.reading.Some? && node.reading.value.reply.Some? && node.reading.value.reply.value.Entry? then node
    else FRESH.(applied := applied, wal := node.wal, consumed := node.consumed)
  }

  predicate IsAppend(step: Local) {
    step.CheckLease? || step.TakeLock? || step.WriteEntry? || step.ReleaseLock? || step.CountAppend?
  }

  function LeaseStep(s: ClusterState, logged: nat, self: NodeId, node: Node, step: Local): Node {
    match step
    case ApplyNext => if node.applied < logged then node.(applied := node.applied + 1) else node
    case ComputeLeases => node.(computed := node.computed + {LeaseSet(s, self)})
    case InstallLeases(keys) => if keys in node.computed then node.(leases := keys) else node
    case _ => node
  }

  function OwnStep(s: ClusterState, logged: nat, self: NodeId, node: Node, step: Local): Node {
    match step
    case BeginRead(topic) => BeginReadStep(s, node, topic)
    case FinishRead => FinishReadStep(s, node)
    case Restart(applied) => if applied <= logged then RestartStep(node, applied) else node
    case _ => LeaseStep(s, logged, self, node, step)
  }

  /** A step of a node whose metadata say `s`, with `logged` commands in the log. */
  function StepWith(s: ClusterState, logged: nat, self: NodeId, node: Node, step: Local): Node {
    if IsAppend(step) then AppendStep(node, step) else OwnStep(s, logged, self, node, step)
  }

  function LocalStep(log: seq<Cmd>, self: NodeId, node: Node, step: Local): Node {
    StepWith(Replay(Prefix(log, node)), |log|, self, node, step)
  }

  /** The leader's engine answers the outstanding read of `reader` and moves its read position. */
  function Serve(c: Cluster, reader: NodeId): Cluster {
    if reader !in c.nodes || c.nodes[reader].reading.None? then c
    else
      var r := c.nodes[reader].reading.value;
      if r.reply.Some? || r.leader !in c.nodes then c
      else
        var key := WalKey(r.topic, r.segment);
        var leader := c.nodes[r.leader];
        var k := Taken(leader, key);
        if k < |Fifo(leader, key)| then
          var data := Fifo(leader, key)[k];
          var nodes := c.nodes[r.leader := leader.(consumed := leader.consumed[key := k + 1])];
          var replied := nodes[reader].(reading := Some(r.(reply := Some(Entry(data)))));
          Cluster(c.log, nodes[reader := replied], c.delivered + [Delivery(reader, key, k, data)])
        else
          var replied := c.nodes[reader].(reading := Some(r.(reply := Some(Empty))));
          c.(nodes := c.nodes[reader := replied])
  }

  function Exec(c: Cluster, a: Action): Cluster {
    match a
    case Commit(cmd) => c.(log := c.log + [cmd])
    case At(n, step) => if n in c.nodes then c.(nodes := c.nodes[n := LocalStep(c.log, n, c.nodes[n], step)]) else c
    case ServeRead(reader) => Serve(c, reader)
  }

  function Run(c: Cluster, acts: seq<Action>): Cluster {
    if acts == [] then c else Exec(Run(c, Front(acts)), Last(acts))
  }

  lemma {:induction false} RunConcat(c: Cluster, a: seq<Action>, b: seq<Action>)
    ensures Run(c, a + b) == Run(Run(c, a), b)
  {
    if b == [] {
      assert a + b == a;
    } else {
      RunConcat(c, a, Front(b));
      assert Front(a + b) == a + Front(b) && Last(a + b) == Last(b);
    }
  }

  lemma RunPrefix(c: Cluster, acts: seq<Action>, i: nat)
    requires i < |acts|
    ensures Run(c, acts[..i + 1]) == Exec(Run(c, acts[..i]), acts[i])
  {
    assert Front(acts[..i + 1]) == acts[..i];
  }

  /** What is never taken back: the log, the WALs and the read positions only grow. */
  ghost predicate Extends(c: Cluster, d: Cluster) {
    && c.log <= d.log
    && c.nodes.Keys == d.nodes.Keys
    && c.delivered <= d.delivered
    && (forall n :: n in c.nodes ==> NodeGrows(c.nodes[n], d.nodes[n]))
  }

  ghost predicate NodeGrows(a: Node, b: Node) {
    forall key :: Fifo(a, key) <= Fifo(b, key) && Taken(a, key) <= Taken(b, key)
  }

  lemma LocalGrows(log: seq<Cmd>, self: NodeId, node: Node, step: Local)
    ensures NodeGrows(node, LocalStep(log, self, node, step))
    ensures LocalStep(log, self, node, step).consumed == node.consumed
    ensures !step.WriteEntry? ==> LocalStep(log, self, node, step).wal == node.wal
  {
    StepFrame(Replay(Prefix(log, node)), |log|, self, node, step);
    if step.WriteEntry? { WriteFrame(node, step.id); }
  }

  ghost predicate SameEngine(a: Node, b: Node) { b.wal == a.wal && b.consumed == a.consumed }

  /** Appends, locks, counts and engine are as they were. */
  ghost predicate SameAppends(a: Node, b: Node) {
    b == a.(applied := b.applied, computed := b.computed, leases := b.leases, cursors := b.cursors, reading := b.reading)
  }

  lemma ReadFrame(s: ClusterState, logged: nat, self: NodeId, node: Node, step: Local)
    requires step.BeginRead? || step.FinishRead?
    ensures SameAppends(node, OwnStep(s, logged, self, node, step))
  {
    if step.BeginRead? { BeginReadFrame(s, node, step.topic); } else { FinishReadFrame(s, node); }
  }

  lemma LeaseFrame(s: ClusterState, logged: nat, self: NodeId, node: Node, step: Local)
    ensures SameAppends(node, LeaseStep(s, logged, self, node, step))
  {
  }

  /** A step outside the append steps leaves the appends alone unless it restarts ... */
  lemma OwnFrame(s: ClusterState, logged: nat, self: NodeId, node: Node, step: Local)
    requires !step.Restart?
    ensures SameAppends(node, OwnStep(s, logged, self, node, step))
  {
    if step.BeginRead? || step.FinishRead? {
      ReadFrame(s, logged, self, node, step);
    } else {
      LeaseFrame(s, logged, self, node, step);
    }
  }

  /** ... and always the engine. */
  lemma OwnEngine(s: ClusterState, logged: nat, self: NodeId, node: Node, step: Local)
    ensures SameEngine(node, OwnStep(s, logged, self, node, step))
  {
    if !step.Restart? { OwnFrame(s, logged, self, node, step); }
  }

  lemma StepFrame(s: ClusterState, logged: nat, self: NodeId, node: Node, step: Local)
    ensures StepWith(s, logged, self, node, step).consumed == node.consumed
    ensures !step.WriteEntry? ==> StepWith(s, logged, self, node, step).wal == node.wal
  {
    if IsAppend(step) { AppendFrame(node, step); } else { OwnEngine(s, logged, self, node, step); }
  }

  lemma WriteFrame(node: Node, id: nat)
    ensures NodeGrows(node, AppendStep(node, WriteEntry(id)))
  {
  }

  /** A read step touches the cursors and the read in progress only. */
  ghost predicate SameButReads(a: Node, b: Node) {
    b == a.(cursors := b.cursors, reading := b.reading)
  }

  lemma BeginReadFrame(s: ClusterState, node: Node, topic: string)
    ensures SameButReads(node, BeginReadStep(s, node, topic))
  {
  }

  lemma FinishReadFrame(s: ClusterState, node: Node)
    ensures SameButReads(node, FinishReadStep(s, node))
  {
  }

  /** The read in progress has been answered "empty" about a segment seen as sealed. */
  predicate FoundEmpty(node: Node, t: string) {
    && node.reading.Some? && node.reading.value.topic == t && node.reading.value.reply.Some?
    && node.reading.value.reply.value.Empty? && node.reading.value.segment < node.reading.value.current
  }

  /** Finishing a read moves a cursor on only after such an answer. */
  lemma FinishReadShape(s: ClusterState, node: Node, t: string)
    requires node.reading.Some? ==> node.reading.value.topic in node.cursors
    ensures var after := FinishReadStep(s, node);
            && (t in after.cursors <==> t in node.cursors)
            && (t in node.cursors ==>
                  after.cursors[t].segment == node.cursors[t].segment + if FoundEmpty(node, t) then 1 else 0)
  {
  }

  lemma FinishReadEnds(s: ClusterState, node: Node)
    ensures FinishReadStep(s, node).reading.None? || FinishReadStep(s, node).reading == node.reading
  {
  }

  /** A step that is neither a read step nor a restart leaves the reader's state alone. */
  lemma OtherStepFrame(s: ClusterState, logged: nat, self: NodeId, node: Node, step: Local)
    requires !step.BeginRead? && !step.FinishRead? && !step.Restart?
    ensures var after := StepWith(s, logged, self, node, step);
            && after.cursors == node.cursors && after.reading == node.reading
            && (after.applied == node.applied || node.applied < after.applied <= logged)
  {
    if IsAppend(step) { AppendFrame(node, step); }
  }

  lemma AppendFrame(node: Node, step: Local)
    ensures NodeGrows(node, AppendStep(node, step))
    ensures var after := AppendStep(node, step);
            after == node.(appends := after.appends, locks := after.locks, offsets := after.offsets, wal := after.wal)
    ensures !step.WriteEntry? ==> AppendStep(node, step).wal == node.wal
  {
  }

  lemma LocalExtends(c: Cluster, n: NodeId, step: Local)
    ensures Extends(c, Exec(c, At(n, step)))
  {
    if n in c.nodes { LocalGrows(c.log, n, c.nodes[n], step); }
  }

  lemma ServeGrows(c: Cluster, reader: NodeId, n: NodeId)
    requires n in c.nodes
    ensures n in Serve(c, reader).nodes && NodeGrows(c.nodes[n], Serve(c, reader).nodes[n])
  {
  }

  lemma ExecExtends(c: Cluster, a: Action)
    ensures Extends(c, Exec(c, a))
  {
    match a
    case Commit(_) =>
    case At(n, step) => LocalExtends(c, n, step);
    case ServeRead(reader) =>
      forall n | n in c.nodes ensures NodeGrows(c.nodes[n], Serve(c, reader).nodes[n]) { ServeGrows(c, reader, n); }
  }

  lemma {:induction false} RunExtends(c: Cluster, acts: seq<Action>, i: nat)
    requires i <= |acts|
    ensures Extends(Run(c, acts[..i]), Run(c, acts))
    decreases |acts|
  {
    if i == |acts| {
      assert acts[..i] == acts;
    } else {
      RunExtends(c, Front(acts), i);
      assert Front(acts)[..i] == acts[..i];
      ExecExtends(Run(c, Front(acts)), Last(acts));
    }
  }
}
