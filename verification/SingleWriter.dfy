/**
 Single writer per segment and agreement of routing, over every run of the data plane, whatever the
 lag of the replicas, the order in which lease sets are installed and the delay between the lease
 check of an append and its write.
 */
module SingleWriter {
  import opened Basics
  import opened Metadata
  import opened WalKeys
  import opened DataPlane

  /** `key` is the WAL key of a segment that the log gives to node `n`. */
  ghost predicate Owner(log: seq<Cmd>, key: string, n: NodeId) {
    exists t, s :: key == WalKey(t, s) && Leads(log, t, s, n)
  }

  lemma OwnerUnique(log: seq<Cmd>, key: string, n: NodeId, m: NodeId)
    requires Owner(log, key, n) && Owner(log, key, m)
    ensures n == m
  {
    var t1, s1 :| key == WalKey(t1, s1) && Leads(log, t1, s1, n);
    var t2, s2 :| key == WalKey(t2, s2) && Leads(log, t2, s2, m);
    WalKeyInjective(t1, s1, t2, s2);
  }

  lemma OwnerStable(p: seq<Cmd>, log: seq<Cmd>, key: string, n: NodeId)
    requires p <= log && Owner(p, key, n)
    ensures Owner(log, key, n)
  {
    var t, s :| key == WalKey(t, s) && Leads(p, t, s, n);
    HistoryGrows(p, log, t);
    assert Leads(log, t, s, n);
  }

  ghost predicate AllOwned(log: seq<Cmd>, keys: set<string>, n: NodeId) {
    forall key :: key in keys ==> Owner(log, key, n)
  }

  /** Node `n` has to do with a key: it holds the lease, has an append for it in flight, or has written it. */
  ghost predicate Touches(node: Node, key: string) {
    || key in node.leases
    || key in node.wal
    || exists id :: id in node.appends && node.appends[id].key == key
  }

  ghost predicate NodeSafe(log: seq<Cmd>, n: NodeId, node: Node) {
    && node.applied <= |log|
    && (forall keys :: keys in node.computed ==> AllOwned(log, keys, n))
    && (forall key :: Touches(node, key) ==> Owner(log, key, n))
  }

  ghost predicate Safe(c: Cluster) {
    forall n :: n in c.nodes ==> NodeSafe(c.log, n, c.nodes[n])
  }

  lemma NodeSafeGrows(p: seq<Cmd>, log: seq<Cmd>, n: NodeId, node: Node)
    requires p <= log && NodeSafe(p, n, node)
    ensures NodeSafe(log, n, node)
  {
    forall keys | keys in node.computed ensures AllOwned(log, keys, n) {
      forall key | key in keys ensures Owner(log, key, n) {
        assert AllOwned(p, keys, n);
        OwnerStable(p, log, key, n);
      }
    }
    forall key | Touches(node, key) ensures Owner(log, key, n) { OwnerStable(p, log, key, n); }
  }

  lemma ComputedIsOwned(log: seq<Cmd>, n: NodeId, node: Node)
    requires node.applied <= |log|
    ensures AllOwned(log, LeaseSet(Replay(Prefix(log, node)), n), n)
  {
    var p := Prefix(log, node);
    forall key | key in LeaseSet(Replay(p), n) ensures Owner(log, key, n) {
      var pair :| pair in Owned(Replay(p), n) && key == WalKey(pair.0, pair.1);
      OwnedIsLed(p, log, n, pair.0, pair.1);
    }
  }

  lemma LocalSafe(log: seq<Cmd>, n: NodeId, node: Node, step: Local)
    requires NodeSafe(log, n, node)
    ensures NodeSafe(log, n, LocalStep(log, n, node, step))
  {
    ComputedIsOwned(log, n, node);
    StepSafe(log, n, node, step, Replay(Prefix(log, node)));
  }

  /** Applying a command, reading and restarting touch nothing new. */
  lemma QuietSafe(log: seq<Cmd>, n: NodeId, node: Node, step: Local, s: ClusterState)
    requires NodeSafe(log, n, node) && (step.ApplyNext? || step.BeginRead? || step.FinishRead? || step.Restart?)
    ensures NodeSafe(log, n, OwnStep(s, |log|, n, node, step))
  {
    if step.BeginRead? {
      BeginReadFrame(s, node, step.topic);
    } else if step.FinishRead? {
      FinishReadFrame(s, node);
    }
  }

  lemma OwnSafe(log: seq<Cmd>, n: NodeId, node: Node, step: Local, s: ClusterState)
    requires NodeSafe(log, n, node) && AllOwned(log, LeaseSet(s, n), n)
    ensures NodeSafe(log, n, OwnStep(s, |log|, n, node, step))
  {
    if step.ApplyNext? || step.BeginRead? || step.FinishRead? || step.Restart? { QuietSafe(log, n, node, step, s); }
  }

  lemma StepSafe(log: seq<Cmd>, n: NodeId, node: Node, step: Local, s: ClusterState)
    requires NodeSafe(log, n, node) && AllOwned(log, LeaseSet(s, n), n)
    ensures NodeSafe(log, n, StepWith(s, |log|, n, node, step))
  {
    if !IsAppend(step) { OwnSafe(log, n, node, step, s); }
  }

  lemma ServeSafe(c: Cluster, reader: NodeId)
    requires Safe(c)
    ensures Safe(Serve(c, reader))
  {
    var d := Serve(c, reader);
    forall n | n in d.nodes ensures NodeSafe(d.log, n, d.nodes[n]) {
      var a, b := c.nodes[n], d.nodes[n];
      assert b == a.(consumed := b.consumed, reading := b.reading);
      assert forall key :: Touches(b, key) ==> Touches(a, key);
    }
  }

  lemma ExecSafe(c: Cluster, a: Action)
    requires Safe(c)
    ensures Safe(Exec(c, a))
  {
    match a
    case Commit(cmd) =>
      forall n | n in c.nodes ensures NodeSafe(c.log + [cmd], n, c.nodes[n]) {
        NodeSafeGrows(c.log, c.log + [cmd], n, c.nodes[n]);
      }
    case At(n, step) => if n in c.nodes { LocalSafe(c.log, n, c.nodes[n], step); }
    case ServeRead(reader) => ServeSafe(c, reader);
  }

  lemma {:induction false} RunSafe(ids: set<NodeId>, acts: seq<Action>)
    ensures Safe(Run(Init(ids), acts))
  {
    if acts == [] {
      forall n | n in ids ensures NodeSafe([], n, FRESH) {
        assert forall key :: !Touches(FRESH, key);
      }
    } else {
      RunSafe(ids, Front(acts));
      ExecSafe(Run(Init(ids), Front(acts)), Last(acts));
    }
  }

  /** At most one node ever holds the lease of a segment, has an append to it under way, or has written
      an entry to it: the two points `i` and `j` of the run may be any, in either order. */
  lemma AtMostOneWriter(ids: set<NodeId>, acts: seq<Action>, i: nat, j: nat, n: NodeId, m: NodeId, key: string)
    requires i <= |acts| && j <= |acts|
    requires n in Run(Init(ids), acts[..i]).nodes && Touches(Run(Init(ids), acts[..i]).nodes[n], key)
    requires m in Run(Init(ids), acts[..j]).nodes && Touches(Run(Init(ids), acts[..j]).nodes[m], key)
    ensures n == m
    ensures Owner(Run(Init(ids), acts).log, key, n)
  {
    var final := Run(Init(ids), acts).log;
    RunSafe(ids, acts[..i]);
    RunSafe(ids, acts[..j]);
    RunExtends(Init(ids), acts, i);
    RunExtends(Init(ids), acts, j);
    OwnerStable(Run(Init(ids), acts[..i]).log, final, key, n);
    OwnerStable(Run(Init(ids), acts[..j]).log, final, key, m);
    OwnerUnique(final, key, n, m);
  }

  /** Routing agreement: a reader that has applied any prefix of the log, at any point `i` of the run,
      routes a segment in range to the node that leads it in the final log, and no other node's WAL
      holds an entry of that segment at any point `j`. */
  lemma RoutedToTheWriter(ids: set<NodeId>, acts: seq<Action>, i: nat, j: nat, reader: NodeId, m: NodeId, topic: string, segment: nat)
    requires i <= |acts| && j <= |acts|
    requires reader in Run(Init(ids), acts[..i]).nodes
    requires var c := Run(Init(ids), acts[..i]);
             var s := Replay(Prefix(c.log, c.nodes[reader]));
             topic in s.topics && 1 <= segment <= s.topics[topic].current
    requires m in Run(Init(ids), acts[..j]).nodes && Touches(Run(Init(ids), acts[..j]).nodes[m], WalKey(topic, segment))
    ensures var c := Run(Init(ids), acts[..i]);
            Route(Replay(Prefix(c.log, c.nodes[reader])), topic, segment) == m
  {
    var c, key := Run(Init(ids), acts[..i]), WalKey(topic, segment);
    var final := Run(Init(ids), acts).log;
    RunExtends(Init(ids), acts, i);
    RunSafe(ids, acts[..i]);
    assert NodeSafe(c.log, reader, c.nodes[reader]);
    var p := Prefix(c.log, c.nodes[reader]);
    LookupsInRange(p, final, topic, segment);
    AtMostOneWriter(ids, acts, j, j, m, m, key);
    OwnerUnique(final, key, m, Route(Replay(p), topic, segment));
  }
}
