/**
 The per-key write lock and the origin of what is written, over every run of the data plane: between
 taking and releasing the lock of a key an append is alone on that key, and nothing reaches a WAL that
 was not asked for under that key at that node (distributed-walrus/src/bucket.rs).
 */
module WriteLocks {
  import opened Basics
  import opened Metadata
  import opened DataPlane

  /** Append `id` stands between taking and releasing the lock of `key`. */
  predicate Inside(node: Node, id: nat, key: string) {
    && id in node.appends && node.appends[id].key == key
    && (node.appends[id].phase == Locked || node.appends[id].phase == Written)
  }

  /** The lock table names append `id` exactly when it is inside. */
  predicate Agrees(node: Node, key: string, id: nat) {
    Inside(node, id, key) <==> key in node.locks && node.locks[key] == id
  }

  /** The lock table names exactly the append inside. */
  ghost predicate LockedBy(node: Node, key: string) {
    forall id :: Agrees(node, key, id)
  }

  lemma LockStepAgrees(node: Node, step: Local, key: string, id: nat)
    requires step.TakeLock? || step.WriteEntry? || step.ReleaseLock?
    requires Agrees(node, key, id) && Agrees(node, key, step.id)
    ensures Agrees(AppendStep(node, step), key, id)
  {
    if step.TakeLock? {
    } else if step.WriteEntry? {
    } else {
    }
  }

  lemma AppendLocks(node: Node, step: Local, key: string)
    requires LockedBy(node, key)
    ensures LockedBy(AppendStep(node, step), key)
  {
    forall id ensures Agrees(AppendStep(node, step), key, id) {
      if step.TakeLock? || step.WriteEntry? || step.ReleaseLock? {
        LockStepAgrees(node, step, key, id);
      }
    }
  }

  lemma SameLocks(node: Node, after: Node, key: string)
    requires LockedBy(node, key) && after.appends == node.appends && after.locks == node.locks
    ensures LockedBy(after, key)
  {
    forall id ensures Agrees(after, key, id) { assert Agrees(node, key, id); }
  }

  lemma StepLocks(s: ClusterState, logged: nat, self: NodeId, node: Node, step: Local, key: string)
    requires LockedBy(node, key)
    ensures LockedBy(StepWith(s, logged, self, node, step), key)
  {
    if IsAppend(step) {
      AppendLocks(node, step, key);
    } else if step.Restart? {
      var after := StepWith(s, logged, self, node, step);
      if after.appends != map[] { SameLocks(node, after, key); }
    } else {
      OwnFrame(s, logged, self, node, step);
      SameLocks(node, OwnStep(s, logged, self, node, step), key);
    }
  }

  lemma ServeAppends(c: Cluster, reader: NodeId, n: NodeId)
    requires n in c.nodes
    ensures var a, b := c.nodes[n], Serve(c, reader).nodes[n];
            b.appends == a.appends && b.locks == a.locks && b.wal == a.wal
  {
  }

  /** Over every run: the appends inside the lock of a key are exactly the one its lock names, so there is
      never a second. */
  lemma {:induction false} OneAppendInside(ids: set<NodeId>, acts: seq<Action>, n: NodeId, key: string)
    requires n in Run(Init(ids), acts).nodes
    ensures LockedBy(Run(Init(ids), acts).nodes[n], key)
  {
    if acts != [] {
      var c, a := Run(Init(ids), Front(acts)), Last(acts);
      ExecExtends(c, a);
      OneAppendInside(ids, Front(acts), n, key);
      match a {
        case Commit(_) =>
        case At(m, step) =>
          if m == n { StepLocks(Replay(Prefix(c.log, c.nodes[n])), |c.log|, n, c.nodes[n], step, key); }
        case ServeRead(reader) =>
          ServeAppends(c, reader, n);
          SameLocks(c.nodes[n], Serve(c, reader).nodes[n], key);
      }
    }
  }

  // ----- Where the entries come from -----

  /** Some request of the run asked node `n` to append `data` under `key`. */
  ghost predicate Asked(acts: seq<Action>, n: NodeId, key: string, data: Payload) {
    exists i, id :: 0 <= i < |acts| && acts[i] == At(n, CheckLease(id, key, data))
  }

  ghost predicate OnlyAsked(acts: seq<Action>, n: NodeId, node: Node) {
    && (forall id :: id in node.appends ==> Asked(acts, n, node.appends[id].key, node.appends[id].data))
    && (forall key, data :: data in Fifo(node, key) ==> Asked(acts, n, key, data))
  }

  lemma AskedLater(acts: seq<Action>, a: Action, n: NodeId, key: string, data: Payload)
    requires Asked(acts, n, key, data) || exists id :: a == At(n, CheckLease(id, key, data))
    ensures Asked(acts + [a], n, key, data)
  {
    if Asked(acts, n, key, data) {
      var i, id :| 0 <= i < |acts| && acts[i] == At(n, CheckLease(id, key, data));
      assert (acts + [a])[i] == At(n, CheckLease(id, key, data));
    } else {
      var id :| a == At(n, CheckLease(id, key, data));
      assert (acts + [a])[|acts|] == At(n, CheckLease(id, key, data));
    }
  }

  /** A node that holds no append and no entry but those it had still holds only what was asked. */
  lemma NoneAdded(acts: seq<Action>, a: Action, n: NodeId, node: Node, after: Node)
    requires OnlyAsked(acts, n, node) && after.wal == node.wal
    requires after.appends == node.appends || after.appends == map[]
    ensures OnlyAsked(acts + [a], n, after)
  {
    forall id | id in after.appends ensures Asked(acts + [a], n, after.appends[id].key, after.appends[id].data) {
      AskedLater(acts, a, n, after.appends[id].key, after.appends[id].data);
    }
    forall key, data | data in Fifo(after, key) ensures Asked(acts + [a], n, key, data) {
      assert data in Fifo(node, key);
      AskedLater(acts, a, n, key, data);
    }
  }

  lemma AppendAsked(acts: seq<Action>, n: NodeId, node: Node, step: Local)
    requires OnlyAsked(acts, n, node)
    ensures OnlyAsked(acts + [At(n, step)], n, AppendStep(node, step))
  {
    var after, a := AppendStep(node, step), At(n, step);
    forall id | id in after.appends ensures Asked(acts + [a], n, after.appends[id].key, after.appends[id].data) {
      AskedLater(acts, a, n, after.appends[id].key, after.appends[id].data);
    }
    forall key, data | data in Fifo(after, key) ensures Asked(acts + [a], n, key, data) {
      AskedLater(acts, a, n, key, data);
    }
  }

  lemma StepAsked(acts: seq<Action>, s: ClusterState, logged: nat, n: NodeId, node: Node, step: Local)
    requires OnlyAsked(acts, n, node)
    ensures OnlyAsked(acts + [At(n, step)], n, StepWith(s, logged, n, node, step))
  {
    if IsAppend(step) {
      AppendAsked(acts, n, node, step);
    } else {
      if !step.Restart? { OwnFrame(s, logged, n, node, step); }
      OwnEngine(s, logged, n, node, step);
      NoneAdded(acts, At(n, step), n, node, OwnStep(s, logged, n, node, step));
    }
  }

  lemma ExecAsked(acts: seq<Action>, c: Cluster, a: Action, n: NodeId)
    requires n in c.nodes && n in Exec(c, a).nodes && OnlyAsked(acts, n, c.nodes[n])
    ensures OnlyAsked(acts + [a], n, Exec(c, a).nodes[n])
  {
    if a.At? && a.node == n {
      StepAsked(acts, Replay(Prefix(c.log, c.nodes[n])), |c.log|, n, c.nodes[n], a.step);
    } else {
      if a.ServeRead? { ServeAppends(c, a.reader, n); }
      NoneAdded(acts, a, n, c.nodes[n], Exec(c, a).nodes[n]);
    }
  }

  /** Over every run: an entry in the WAL of a node under a key was sent to that node for that key. */
  lemma {:induction false} WrittenWasAsked(ids: set<NodeId>, acts: seq<Action>, n: NodeId)
    requires n in Run(Init(ids), acts).nodes
    ensures OnlyAsked(acts, n, Run(Init(ids), acts).nodes[n])
  {
    if acts != [] {
      var c, a := Run(Init(ids), Front(acts)), Last(acts);
      ExecExtends(c, a);
      WrittenWasAsked(ids, Front(acts), n);
      ExecAsked(Front(acts), c, a, n);
      assert acts == Front(acts) + [a];
    }
  }

  // ----- One append on its own -----

  lemma TakesLock(node: Node, id: nat, key: string, data: Payload)
    requires id in node.appends && node.appends[id] == Append(key, data, Checked) && key !in node.locks
    ensures AppendStep(node, TakeLock(id))
            == node.(appends := node.appends[id := Append(key, data, Locked)], locks := node.locks[key := id])
  {
  }

  lemma WritesOnce(node: Node, id: nat, key: string, data: Payload)
    requires id in node.appends && node.appends[id] == Append(key, data, Locked)
    ensures AppendStep(node, WriteEntry(id))
            == node.(appends := node.appends[id := Append(key, data, Written)], wal := node.wal[key := Fifo(node, key) + [data]])
  {
  }

  lemma ReleasesAndCounts(node: Node, id: nat, key: string, data: Payload)
    requires id in node.appends && node.appends[id] == Append(key, data, Written)
    ensures AppendStep(AppendStep(node, ReleaseLock(id)), CountAppend(id))
            == node.(appends := node.appends - {id}, locks := node.locks - {key},
                     offsets := node.offsets[key := Get(node.offsets, key, 0) + 1])
  {
    var released := AppendStep(node, ReleaseLock(id));
    assert released == node.(appends := node.appends[id := Append(key, data, Released)], locks := node.locks - {key});
    assert released.appends - {id} == node.appends - {id};
  }

  /** An append whose lease is there, and whose key nobody holds, writes its entry once, at the end of its key,
      is counted once, and leaves no trace in the lock table. */
  lemma AppendAlone(node: Node, id: nat, key: string, data: Payload)
    requires id !in node.appends && key in node.leases && key !in node.locks
    ensures var a := AppendStep(node, CheckLease(id, key, data));
            var b := AppendStep(AppendStep(a, TakeLock(id)), WriteEntry(id));
            var c := AppendStep(AppendStep(b, ReleaseLock(id)), CountAppend(id));
            c == node.(wal := node.wal[key := Fifo(node, key) + [data]],
                       offsets := node.offsets[key := Get(node.offsets, key, 0) + 1])
  {
    var a := AppendStep(node, CheckLease(id, key, data));
    TakesLock(a, id, key, data);
    var b := AppendStep(a, TakeLock(id));
    WritesOnce(b, id, key, data);
    var c := AppendStep(b, WriteEntry(id));
    ReleasesAndCounts(c, id, key, data);
    assert c.appends - {id} == node.appends && c.locks - {key} == node.locks;
  }

  /** Without the lease, or with the key held by another append, the entry is not written. */
  lemma AppendHeldUp(node: Node, id: nat, key: string, data: Payload)
    requires id !in node.appends && (key !in node.leases || key in node.locks)
    ensures var a := AppendStep(node, CheckLease(id, key, data));
            AppendStep(AppendStep(a, TakeLock(id)), WriteEntry(id)).wal == node.wal
  {
    var a := AppendStep(node, CheckLease(id, key, data));
    assert AppendStep(a, TakeLock(id)) == a;
  }
}
