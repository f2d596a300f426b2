/**
 When do sealed counts match the stored entries? Exactly in the runs whose rollovers carry the true
 count and in which no append writes to a segment after it was sealed. The tracked count that a rollover
 carries is traced back to the appends, restarts and writes that make it right or wrong.
 */
module SealedCounts {
  import opened Basics
  import opened Metadata
  import opened WalKeys
  import opened DataPlane
  import opened SingleWriter
  import opened Reading

  ghost predicate ExactAt(c: Cluster, t: string, s: nat) {
    Sealed(c.log, t, s) ==> |Counts(c.log, t)| + 1 == |Leaders(c.log, t)| && |Stored(c, t, s)| == Counts(c.log, t)[s - 1]
  }

  /** The documented invariant "sealed counts match actual WAL contents". */
  ghost predicate CountsExact(c: Cluster) { forall t, s :: ExactAt(c, t, s) }

  ghost predicate ExactStep(c: Cluster, a: Action) {
    && (forall t :: Rolls(c, a, t) ==> |Stored(c, t, |Leaders(c.log, t)|)| == a.cmd.count)
    && (forall key :: Writes(c, a, key) ==> !SealedKey(c.log, key))
  }

  lemma ExactStepKeeps(c: Cluster, a: Action)
    requires Safe(c) && CountsExact(c) && ExactStep(c, a)
    ensures CountsExact(Exec(c, a))
  {
    var d := Exec(c, a);
    ExecExtends(c, a);
    forall t, s ensures ExactAt(d, t, s) {
      if Sealed(d.log, t, s) {
        ReplayDescribed(d.log, t);
        HistoryGrows(c.log, d.log, t);
        if Sealed(c.log, t, s) {
          assert ExactAt(c, t, s);
          if Writes(c, a, WalKey(t, s)) { assert SealedKey(c.log, WalKey(t, s)); }
          StoredStep(c, a, t, s);
        } else {
          NewlySealed(c, a, t, s);
          StoredStep(c, a, t, s);
        }
      }
    }
  }

  lemma InexactRolloverShows(c: Cluster, a: Action, t: string)
    requires Safe(c) && Rolls(c, a, t) && |Stored(c, t, |Leaders(c.log, t)|)| != a.cmd.count
    ensures !CountsExact(Exec(c, a))
  {
    var s, d := |Leaders(c.log, t)|, Exec(c, a);
    assert Front(d.log) == c.log && Last(d.log) == a.cmd;
    assert Sealed(d.log, t, s);
    ReplayDescribed(d.log, t);
    NewlySealed(c, a, t, s);
    StoredStep(c, a, t, s);
    assert !ExactAt(d, t, s);
  }

  lemma LateWriteShows(c: Cluster, a: Action, key: string)
    requires Safe(c) && CountsExact(c) && Writes(c, a, key) && SealedKey(c.log, key)
    ensures !CountsExact(Exec(c, a))
  {
    var t, s :| key == WalKey(t, s) && Sealed(c.log, t, s);
    assert ExactAt(c, t, s);
    StoredStep(c, a, t, s);
    assert !ExactAt(Exec(c, a), t, s);
  }

  lemma ExactStepIff(c: Cluster, a: Action)
    requires Safe(c) && CountsExact(c)
    ensures CountsExact(Exec(c, a)) <==> ExactStep(c, a)
  {
    if ExactStep(c, a) {
      ExactStepKeeps(c, a);
    } else if t :| Rolls(c, a, t) && |Stored(c, t, |Leaders(c.log, t)|)| != a.cmd.count {
      InexactRolloverShows(c, a, t);
    } else {
      var key :| Writes(c, a, key) && SealedKey(c.log, key);
      LateWriteShows(c, a, key);
    }
  }

  ghost predicate ExactThroughout(c: Cluster, acts: seq<Action>) {
    forall i :: 0 <= i <= |acts| ==> CountsExact(Run(c, acts[..i]))
  }

  ghost predicate ExactSteps(c: Cluster, acts: seq<Action>) {
    forall i :: 0 <= i < |acts| ==> ExactStep(Run(c, acts[..i]), acts[i])
  }

  /** Sealed counts match the WALs throughout a run exactly when every rollover that commits carries the
      true count of the segment it seals and no append writes to a segment already sealed. */
  lemma ExactIff(ids: set<NodeId>, acts: seq<Action>)
    ensures ExactThroughout(Init(ids), acts) <==> ExactSteps(Init(ids), acts)
  {
    var c := Init(ids);
    if ExactSteps(c, acts) {
      forall i | 0 <= i <= |acts| ensures CountsExact(Run(c, acts[..i])) { StateExact(ids, acts, i); }
    }
    if ExactThroughout(c, acts) {
      forall i | 0 <= i < |acts| ensures ExactStep(Run(c, acts[..i]), acts[i]) {
        RunSafe(ids, acts[..i]);
        RunPrefix(c, acts, i);
        assert CountsExact(Run(c, acts[..i])) && CountsExact(Run(c, acts[..i + 1]));
        ExactStepIff(Run(c, acts[..i]), acts[i]);
      }
    }
  }

  lemma {:induction false} StateExact(ids: set<NodeId>, acts: seq<Action>, k: nat)
    requires k <= |acts| && ExactSteps(Init(ids), acts)
    ensures CountsExact(Run(Init(ids), acts[..k]))
  {
    if k == 0 {
      assert acts[..0] == [];
      assert forall t, s :: ExactAt(Init(ids), t, s);
    } else {
      StateExact(ids, acts, k - 1);
      var c := Run(Init(ids), acts[..k - 1]);
      RunSafe(ids, acts[..k - 1]);
      RunPrefix(Init(ids), acts, k - 1);
      assert ExactStep(c, acts[k - 1]);
      ExactStepKeeps(c, acts[k - 1]);
    }
  }

  // ----- The tracked count -----

  /** Appends written to the WAL but not counted yet. */
  function Uncounted(node: Node, key: string): set<nat> {
    set id | id in node.appends && node.appends[id].key == key && (node.appends[id].phase == Written || node.appends[id].phase == Released)
  }

  /** The tracked count, the appends still to be counted and `base` entries make up the WAL of the key. */
  ghost predicate TrackedAt(node: Node, key: string, base: nat) {
    Get(node.offsets, key, 0) + |Uncounted(node, key)| + base == |Fifo(node, key)|
  }

  lemma UncountedJoins(node: Node, id: nat, key: string)
    requires id in node.appends && node.appends[id].phase == Locked
    ensures Uncounted(AppendStep(node, WriteEntry(id)), key) == Uncounted(node, key) + if node.appends[id].key == key then {id} else {}
    ensures id !in Uncounted(node, key)
  {
  }

  lemma WriteTracked(node: Node, id: nat, key: string)
    requires id in node.appends && node.appends[id].phase == Locked
    ensures var after := AppendStep(node, WriteEntry(id));
            var own := node.appends[id].key == key;
            && after.offsets == node.offsets
            && |Fifo(after, key)| == |Fifo(node, key)| + (if own then 1 else 0)
            && |Uncounted(after, key)| == |Uncounted(node, key)| + (if own then 1 else 0)
  {
    UncountedJoins(node, id, key);
  }

  lemma UncountedLeaves(node: Node, id: nat, key: string)
    requires id in node.appends && node.appends[id].phase == Released
    ensures Uncounted(AppendStep(node, CountAppend(id)), key) == Uncounted(node, key) - {id}
    ensures id in Uncounted(node, key) <==> node.appends[id].key == key
  {
  }

  lemma CountTracked(node: Node, id: nat, key: string)
    requires id in node.appends && node.appends[id].phase == Released
    ensures var after := AppendStep(node, CountAppend(id));
            var own := node.appends[id].key == key;
            && after.wal == node.wal
            && Get(after.offsets, key, 0) == Get(node.offsets, key, 0) + (if own then 1 else 0)
            && |Uncounted(after, key)| == |Uncounted(node, key)| - (if own then 1 else 0)
  {
    UncountedLeaves(node, id, key);
    var before := Uncounted(node, key);
    assert |before - {id}| == |before| - if id in before then 1 else 0 by {
      if id !in before { assert before - {id} == before; }
    }
  }

  lemma LockTracked(node: Node, step: Local, key: string)
    requires step.CheckLease? || step.TakeLock? || step.ReleaseLock?
    ensures var after := AppendStep(node, step);
            after.offsets == node.offsets && after.wal == node.wal && Uncounted(after, key) == Uncounted(node, key)
  {
  }

  lemma AppendTracked(node: Node, step: Local, key: string, base: nat)
    requires TrackedAt(node, key, base)
    ensures TrackedAt(AppendStep(node, step), key, base)
  {
    match step
    case WriteEntry(id) => if id in node.appends && node.appends[id].phase == Locked { WriteTracked(node, id, key); }
    case CountAppend(id) => if id in node.appends && node.appends[id].phase == Released { CountTracked(node, id, key); }
    case CheckLease(_, _, _) => LockTracked(node, step, key);
    case TakeLock(_) => LockTracked(node, step, key);
    case ReleaseLock(_) => LockTracked(node, step, key);
    case _ =>
  }

  lemma SameCounts(node: Node, after: Node, key: string, base: nat)
    requires TrackedAt(node, key, base) && after.offsets == node.offsets && after.appends == node.appends && after.wal == node.wal
    ensures TrackedAt(after, key, base)
  {
    assert Uncounted(after, key) == Uncounted(node, key);
  }

  lemma StepTracked(s: ClusterState, logged: nat, n: NodeId, node: Node, step: Local, key: string, base: nat)
    requires TrackedAt(node, key, base) && !step.Restart?
    ensures TrackedAt(StepWith(s, logged, n, node, step), key, base)
  {
    if IsAppend(step) {
      AppendTracked(node, step, key, base);
    } else {
      OwnFrame(s, logged, n, node, step);
      SameCounts(node, OwnStep(s, logged, n, node, step), key, base);
    }
  }

  /** The step restarts node `n`: it is not waiting for an answer that carries an entry. */
  predicate Restarts(c: Cluster, a: Action, n: NodeId) {
    && n in c.nodes && a.At? && a.node == n && a.step.Restart? && a.step.applied <= |c.log|
    && !(c.nodes[n].reading.Some? && c.nodes[n].reading.value.reply.Some? && c.nodes[n].reading.value.reply.value.Entry?)
  }

  /** The length of a key's WAL when the node last restarted. */
  function Base(ids: set<NodeId>, acts: seq<Action>, n: NodeId, key: string): nat {
    if acts == [] then 0
    else
      var c := Run(Init(ids), Front(acts));
      if Restarts(c, Last(acts), n) then |Fifo(c.nodes[n], key)| else Base(ids, Front(acts), n, key)
  }

  lemma RestartTracked(c: Cluster, a: Action, n: NodeId, key: string)
    requires Restarts(c, a, n)
    ensures TrackedAt(Exec(c, a).nodes[n], key, |Fifo(c.nodes[n], key)|)
  {
    assert Uncounted(Exec(c, a).nodes[n], key) == {};
  }

  lemma ExecTracked(c: Cluster, a: Action, n: NodeId, key: string, base: nat)
    requires n in c.nodes && TrackedAt(c.nodes[n], key, base) && !Restarts(c, a, n)
    ensures n in Exec(c, a).nodes && TrackedAt(Exec(c, a).nodes[n], key, base)
  {
    match a
    case Commit(_) =>
    case At(m, step) =>
      if m == n && !step.Restart? { StepTracked(Replay(Prefix(c.log, c.nodes[n])), |c.log|, n, c.nodes[n], step, key, base); }
    case ServeRead(reader) =>
      ServeFrame(c, reader, n);
      SameCounts(c.nodes[n], Exec(c, a).nodes[n], key, base);
  }

  /** In every run the WAL of a key holds exactly what the node has counted, what it has written and not
      counted yet, and what was there when it last restarted. */
  lemma {:induction false} TrackedExactly(ids: set<NodeId>, acts: seq<Action>, n: NodeId, key: string)
    requires n in ids
    ensures n in Run(Init(ids), acts).nodes && TrackedAt(Run(Init(ids), acts).nodes[n], key, Base(ids, acts, n, key))
  {
    if acts == [] {
      assert Uncounted(FRESH, key) == {};
    } else {
      var c, a := Run(Init(ids), Front(acts)), Last(acts);
      TrackedExactly(ids, Front(acts), n, key);
      ExecExtends(c, a);
      if Restarts(c, a, n) { RestartTracked(c, a, n, key); } else { ExecTracked(c, a, n, key, Base(ids, Front(acts), n, key)); }
    }
  }

  predicate WritesAt(c: Cluster, a: Action, n: NodeId, key: string) { Writes(c, a, key) && a.node == n }

  /** Node `n` writes nothing to `key` while these actions run from `c` on. */
  predicate NoWrites(c: Cluster, acts: seq<Action>, n: NodeId, key: string) {
    acts != [] ==> NoWrites(c, Front(acts), n, key) && !WritesAt(Run(c, Front(acts)), Last(acts), n, key)
  }

  function Length(c: Cluster, n: NodeId, key: string): nat { if n in c.nodes then |Fifo(c.nodes[n], key)| else 0 }

  lemma LengthStep(c: Cluster, a: Action, n: NodeId, key: string)
    requires n in c.nodes
    ensures n in Exec(c, a).nodes && Length(Exec(c, a), n, key) == Length(c, n, key) + if WritesAt(c, a, n, key) then 1 else 0
  {
    FifoStep(c, a, n, key);
  }

  /** A WAL grows exactly when the node writes to it. */
  lemma {:induction false} GrownIff(c: Cluster, acts: seq<Action>, n: NodeId, key: string)
    requires n in c.nodes
    ensures n in Run(c, acts).nodes && Length(c, n, key) <= Length(Run(c, acts), n, key)
    ensures Length(c, n, key) == Length(Run(c, acts), n, key) <==> NoWrites(c, acts, n, key)
  {
    if acts != [] {
      GrownIff(c, Front(acts), n, key);
      LengthStep(Run(c, Front(acts)), Last(acts), n, key);
    }
  }

  // ----- The count a rollover carries -----

  /** What makes the count that node `n` has tracked for `key` after `before` right after `between` too: it has
      not restarted on a WAL with entries, it had nothing written and uncounted then, and nothing was written
      since. */
  ghost predicate CountsAll(ids: set<NodeId>, before: seq<Action>, between: seq<Action>, n: NodeId, key: string) {
    var c := Run(Init(ids), before);
    n in c.nodes && Base(ids, before, n, key) == 0 && Uncounted(c.nodes[n], key) == {} && NoWrites(c, between, n, key)
  }

  /** The count tracked after `before` is the length of the WAL after `between` exactly then. */
  lemma TrackedCountIff(ids: set<NodeId>, before: seq<Action>, between: seq<Action>, n: NodeId, key: string)
    requires n in ids
    ensures n in Run(Init(ids), before).nodes
    ensures Length(Run(Init(ids), before + between), n, key) == Get(Run(Init(ids), before).nodes[n].offsets, key, 0)
            <==> CountsAll(ids, before, between, n, key)
  {
    TrackedExactly(ids, before, n, key);
    RunConcat(Init(ids), before, between);
    CountedThen(Run(Init(ids), before), between, n, key, Base(ids, before, n, key));
  }

  lemma CountedThen(c: Cluster, between: seq<Action>, n: NodeId, key: string, base: nat)
    requires n in c.nodes && TrackedAt(c.nodes[n], key, base)
    ensures Length(Run(c, between), n, key) == Get(c.nodes[n].offsets, key, 0)
            <==> base == 0 && Uncounted(c.nodes[n], key) == {} && NoWrites(c, between, n, key)
  {
    GrownIff(c, between, n, key);
    var u := Uncounted(c.nodes[n], key);
    assert |u| == 0 <==> u == {};
  }

  lemma StaysMember(ids: set<NodeId>, acts: seq<Action>, n: NodeId)
    requires n in ids
    ensures n in Run(Init(ids), acts).nodes
  {
    RunExtends(Init(ids), acts, 0);
    assert acts[..0] == [];
  }

  /** The rollover committed at `i` carries what the leader of the segment it seals tracked for it at `k`. */
  ghost predicate Carries(ids: set<NodeId>, acts: seq<Action>, k: nat, i: nat, t: string)
    requires i < |acts|
  {
    var c := Run(Init(ids), acts[..i]);
    && k <= i && Rolls(c, acts[i], t) && Last(Leaders(c.log, t)) in ids
    && Last(Leaders(c.log, t)) in Run(Init(ids), acts[..k]).nodes
    && acts[i].cmd.count
       == Get(Run(Init(ids), acts[..k]).nodes[Last(Leaders(c.log, t))].offsets, WalKey(t, |Leaders(c.log, t)|), 0)
  }

  /** Such a count is exact exactly when nothing was missed and nothing came after it. */
  lemma CarriedExactIff(ids: set<NodeId>, acts: seq<Action>, k: nat, i: nat, t: string)
    requires i < |acts| && Carries(ids, acts, k, i, t)
    ensures var c := Run(Init(ids), acts[..i]);
            var l, s := Last(Leaders(c.log, t)), |Leaders(c.log, t)|;
            |Stored(c, t, s)| == acts[i].cmd.count <==> CountsAll(ids, acts[..k], acts[k..i], l, WalKey(t, s))
  {
    var c := Run(Init(ids), acts[..i]);
    var l, s := Last(Leaders(c.log, t)), |Leaders(c.log, t)|;
    TrackedCountIff(ids, acts[..k], acts[k..i], l, WalKey(t, s));
    assert acts[..k] + acts[k..i] == acts[..i];
    StaysMember(ids, acts[..i], l);
    assert Stored(c, t, s) == Fifo(c.nodes[l], WalKey(t, s));
  }

  /** The conditions on one step of such a run. */
  ghost predicate FencedStep(ids: set<NodeId>, acts: seq<Action>, k: nat, i: nat)
    requires i < |acts|
  {
    var c := Run(Init(ids), acts[..i]);
    && (forall t :: Rolls(c, acts[i], t) ==>
          k <= i && CountsAll(ids, acts[..k], acts[k..i], Last(Leaders(c.log, t)), WalKey(t, |Leaders(c.log, t)|)))
    && (forall key :: Writes(c, acts[i], key) ==> !SealedKey(c.log, key))
  }

  lemma FencedIff(ids: set<NodeId>, acts: seq<Action>, k: nat, i: nat)
    requires i < |acts|
    requires forall t :: Rolls(Run(Init(ids), acts[..i]), acts[i], t) ==> Carries(ids, acts, k, i, t)
    ensures ExactStep(Run(Init(ids), acts[..i]), acts[i]) <==> FencedStep(ids, acts, k, i)
  {
    forall t | Rolls(Run(Init(ids), acts[..i]), acts[i], t)
      ensures var c := Run(Init(ids), acts[..i]);
              |Stored(c, t, |Leaders(c.log, t)|)| == acts[i].cmd.count
              <==> k <= i && CountsAll(ids, acts[..k], acts[k..i], Last(Leaders(c.log, t)), WalKey(t, |Leaders(c.log, t)|))
    {
      CarriedExactIff(ids, acts, k, i, t);
    }
  }

  /** In every run whose rollovers carry counts that the sealed segment's leader tracked at some earlier point
      (`from` says which), sealed counts match the WALs throughout exactly when every such count missed
      nothing and nothing came after it, and no append writes to a sealed segment. */
  lemma TrackedExactIff(ids: set<NodeId>, acts: seq<Action>, from: nat -> nat)
    requires forall i, t :: 0 <= i < |acts| && Rolls(Run(Init(ids), acts[..i]), acts[i], t) ==> Carries(ids, acts, from(i), i, t)
    ensures ExactThroughout(Init(ids), acts) <==> forall i :: 0 <= i < |acts| ==> FencedStep(ids, acts, from(i), i)
  {
    ExactIff(ids, acts);
    forall i | 0 <= i < |acts|
      ensures ExactStep(Run(Init(ids), acts[..i]), acts[i]) <==> FencedStep(ids, acts, from(i), i)
    {
      FencedIff(ids, acts, from(i), i);
    }
  }
}
