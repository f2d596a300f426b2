/**
 When is no entry left behind? A cursor loses an entry by standing past a segment that holds one not
 handed out. Three steps of the code can bring that about, and a run keeps clear of it exactly when none of
 them does (distributed-walrus/src/controller/mod.rs `read_one_for_topic`, bucket.rs).
 */
module Lossless {
  import opened Metadata
  import opened WalKeys
  import opened DataPlane
  import opened SingleWriter
  import opened Reading

  /** The segment a node's next read of a topic starts from. */
  function Position(node: Node, t: string): nat { StartCursor(node.cursors, t).segment }

  ghost predicate NodeLossless(c: Cluster, node: Node) {
    forall t, s :: 1 <= s < Position(node, t) ==> Drained(c, t, s)
  }

  /** No cursor stands past an entry that was not handed out. */
  ghost predicate LosesNothing(c: Cluster) {
    forall n :: n in c.nodes ==> NodeLossless(c, c.nodes[n])
  }

  /** Some node's cursor has passed the segment. */
  ghost predicate IsPassed(c: Cluster, t: string, s: nat) {
    exists n :: n in c.nodes && 1 <= s < Position(c.nodes[n], t)
  }

  /** The step closes an "empty" answer about a segment seen as sealed, and the cursor moves on. */
  predicate LeavesEmpty(c: Cluster, a: Action, t: string) {
    a.At? && a.node in c.nodes && a.step.FinishRead? && FoundEmpty(c.nodes[a.node], t)
  }

  /** The step finds the segment counted out, and the cursor moves on. */
  predicate LeavesCounted(c: Cluster, a: Action, t: string) {
    && a.At? && a.node in c.nodes && a.step == BeginRead(t)
    && CountsOut(Replay(Prefix(c.log, c.nodes[a.node])), c.nodes[a.node], t)
  }

  predicate CountsOut(view: ClusterState, node: Node, t: string) {
    node.reading.None? && t in view.topics && CountedOut(view, t, StartCursor(node.cursors, t))
  }

  /** Nothing is written to a segment a cursor has passed, and no "empty" answer is closed that has been
      overtaken by a write. */
  ghost predicate TimelyStep(c: Cluster, a: Action) {
    && (forall t, s :: Writes(c, a, WalKey(t, s)) ==> !IsPassed(c, t, s))
    && (forall t :: LeavesEmpty(c, a, t) ==> Drained(c, t, Position(c.nodes[a.node], t)))
  }

  /** No segment is counted out while it holds an entry not handed out. */
  ghost predicate CountedStep(c: Cluster, a: Action) {
    forall t :: LeavesCounted(c, a, t) ==> Drained(c, t, Position(c.nodes[a.node], t))
  }

  // ----- How cursors move -----

  predicate Moves(view: ClusterState, node: Node, step: Local, t: string) {
    (step.FinishRead? && FoundEmpty(node, t)) || (step == BeginRead(t) && CountsOut(view, node, t))
  }

  /** The read in progress is about the segment its topic's cursor stands at. */
  predicate ReadAtCursor(node: Node) {
    node.reading.Some? ==>
      var r := node.reading.value;
      r.topic in node.cursors && node.cursors[r.topic].segment == r.segment >= 1
  }

  lemma BeginMoves(view: ClusterState, node: Node, t: string)
    ensures Position(BeginReadStep(view, node, t), t) == Position(node, t) + if CountsOut(view, node, t) then 1 else 0
  {
    if node.reading.None? && t in view.topics {
      var after := BeginReadStep(view, node, t);
      assert t in after.cursors && after.cursors[t].segment >= 1;
    }
  }

  lemma BeginElsewhere(view: ClusterState, node: Node, topic: string, t: string)
    requires topic != t
    ensures Position(BeginReadStep(view, node, topic), t) == Position(node, t)
  {
  }

  lemma FinishMoves(view: ClusterState, node: Node, t: string)
    requires ReadAtCursor(node)
    ensures Position(FinishReadStep(view, node), t) == Position(node, t) + if FoundEmpty(node, t) then 1 else 0
    ensures FoundEmpty(node, t) ==> node.reading.value.segment == Position(node, t)
  {
    FinishReadShape(view, node, t);
  }

  lemma PositionStep(view: ClusterState, logged: nat, n: NodeId, node: Node, step: Local, t: string)
    requires ReadAtCursor(node)
    ensures var after := StepWith(view, logged, n, node, step);
            && (Moves(view, node, step, t) ==> Position(after, t) == Position(node, t) + 1)
            && (!Moves(view, node, step, t) ==> Position(after, t) <= Position(node, t))
            && (step.WriteEntry? ==> Position(after, t) == Position(node, t))
  {
    if step.BeginRead? {
      if step.topic == t { BeginMoves(view, node, t); } else { BeginElsewhere(view, node, step.topic, t); }
    } else if step.FinishRead? {
      FinishMoves(view, node, t);
    } else if !step.Restart? {
      OtherStepFrame(view, logged, n, node, step);
    }
  }

  /** Cursors pass sealed segments only. */
  lemma PassedIsSealed(c: Cluster, node: Node, t: string, s: nat)
    requires NodeReads(c, node) && 1 <= s < Position(node, t)
    ensures Sealed(c.log, t, s)
  {
    assert CursorOk(c, node, t);
    HistoryGrows(Prefix(c.log, node), c.log, t);
  }

  /** The cursor that a step moves on stands in a segment of the log. */
  lemma MovesInRange(c: Cluster, node: Node, step: Local, t: string)
    requires NodeReads(c, node) && Moves(Replay(Prefix(c.log, node)), node, step, t)
    ensures InRange(c.log, t, Position(node, t))
  {
    var p := Prefix(c.log, node);
    HistoryGrows(p, c.log, t);
    ReplayDescribed(p, t);
    if node.reading.Some? { assert CursorOk(c, node, node.reading.value.topic); }
    if t in node.cursors { assert CursorOk(c, node, t); }
  }

  predicate MovesAt(c: Cluster, a: Action, n: NodeId, t: string) {
    a.At? && a.node == n && n in c.nodes && Moves(Replay(Prefix(c.log, c.nodes[n])), c.nodes[n], a.step, t)
  }

  lemma PositionAfter(c: Cluster, a: Action, n: NodeId, t: string)
    requires n in c.nodes && NodeReads(c, c.nodes[n])
    ensures n in Exec(c, a).nodes
    ensures MovesAt(c, a, n, t) ==> Position(Exec(c, a).nodes[n], t) == Position(c.nodes[n], t) + 1
    ensures !MovesAt(c, a, n, t) ==> Position(Exec(c, a).nodes[n], t) <= Position(c.nodes[n], t)
    ensures a.At? && a.step.WriteEntry? ==> Position(Exec(c, a).nodes[n], t) == Position(c.nodes[n], t)
  {
    if a.At? && a.node == n {
      PositionStep(Replay(Prefix(c.log, c.nodes[n])), |c.log|, n, c.nodes[n], a.step, t);
    }
  }

  // ----- One step -----

  /** A timely step loses nothing. */
  lemma TimelyKeeps(c: Cluster, a: Action)
    requires ReadSafe(c) && LosesNothing(c) && TimelyStep(c, a) && CountedStep(c, a)
    ensures LosesNothing(Exec(c, a))
  {
    ExecExtends(c, a);
    var d := Exec(c, a);
    forall n, t, s | n in d.nodes && 1 <= s < Position(d.nodes[n], t) ensures Drained(d, t, s) {
      TimelyKeepsAt(c, a, n, t, s);
    }
  }

  lemma TimelyKeepsAt(c: Cluster, a: Action, n: NodeId, t: string, s: nat)
    requires ReadSafe(c) && LosesNothing(c) && TimelyStep(c, a) && CountedStep(c, a) && n in c.nodes && n in Exec(c, a).nodes
    requires 1 <= s < Position(Exec(c, a).nodes[n], t)
    ensures Drained(Exec(c, a), t, s)
  {
    assert NodeReads(c, c.nodes[n]) && NodeLossless(c, c.nodes[n]);
    PositionAfter(c, a, n, t);
    if s < Position(c.nodes[n], t) {
      PassedIsSealed(c, c.nodes[n], t, s);
      assert IsPassed(c, t, s) && Drained(c, t, s);
    } else {
      assert MovesAt(c, a, n, t) && s == Position(c.nodes[n], t);
      MovesInRange(c, c.nodes[n], a.step, t);
      assert LeavesEmpty(c, a, t) || LeavesCounted(c, a, t);
    }
    DrainedHolds(c, a, t, s);
  }

  /** A write behind a cursor shows. */
  lemma LateWriteLoses(c: Cluster, a: Action, n: NodeId, t: string, s: nat)
    requires ReadSafe(c) && LosesNothing(c) && Writes(c, a, WalKey(t, s))
    requires n in c.nodes && 1 <= s < Position(c.nodes[n], t)
    ensures !LosesNothing(Exec(c, a))
  {
    assert NodeReads(c, c.nodes[n]) && NodeLossless(c, c.nodes[n]);
    PassedIsSealed(c, c.nodes[n], t, s);
    PositionAfter(c, a, n, t);
    WriteUndrains(c, a, t, s);
    NotLossless(Exec(c, a), n, t, s);
  }

  lemma NotLossless(d: Cluster, n: NodeId, t: string, s: nat)
    requires n in d.nodes && 1 <= s < Position(d.nodes[n], t) && !Drained(d, t, s)
    ensures !LosesNothing(d)
  {
    assert !NodeLossless(d, d.nodes[n]);
  }

  lemma WriteUndrains(c: Cluster, a: Action, t: string, s: nat)
    requires Safe(c) && InRange(c.log, t, s) && Writes(c, a, WalKey(t, s)) && Drained(c, t, s)
    ensures !Drained(Exec(c, a), t, s)
  {
    StoredStep(c, a, t, s);
  }

  /** A cursor that leaves an entry behind shows. */
  lemma LeavingLoses(c: Cluster, a: Action, t: string)
    requires ReadSafe(c) && (LeavesEmpty(c, a, t) || LeavesCounted(c, a, t))
    requires !Drained(c, t, Position(c.nodes[a.node], t))
    ensures !LosesNothing(Exec(c, a))
  {
    var n, d, s := a.node, Exec(c, a), Position(c.nodes[a.node], t);
    assert NodeReads(c, c.nodes[n]);
    PositionAfter(c, a, n, t);
    if a.step.FinishRead? { FinishStands(c, n); } else { BeginStands(c, n, t); }
    StandsStored(c, d, n, t, s);
    assert MovesAt(c, a, n, t);
    NotLossless(d, n, t, s);
  }

  /** From a state that has lost nothing, a step loses nothing exactly when it is timely. */
  lemma LosslessStepIff(c: Cluster, a: Action)
    requires ReadSafe(c) && LosesNothing(c)
    ensures LosesNothing(Exec(c, a)) <==> TimelyStep(c, a) && CountedStep(c, a)
  {
    if TimelyStep(c, a) && CountedStep(c, a) {
      TimelyKeeps(c, a);
    } else if t :| LeavesCounted(c, a, t) && !Drained(c, t, Position(c.nodes[a.node], t)) {
      LeavingLoses(c, a, t);
    } else if t :| LeavesEmpty(c, a, t) && !Drained(c, t, Position(c.nodes[a.node], t)) {
      LeavingLoses(c, a, t);
    } else {
      var t, s: nat :| Writes(c, a, WalKey(t, s)) && IsPassed(c, t, s);
      PassedWriteLoses(c, a, t, s);
    }
  }

  lemma PassedWriteLoses(c: Cluster, a: Action, t: string, s: nat)
    requires ReadSafe(c) && LosesNothing(c) && Writes(c, a, WalKey(t, s)) && IsPassed(c, t, s)
    ensures !LosesNothing(Exec(c, a))
  {
    var n :| n in c.nodes && 1 <= s < Position(c.nodes[n], t);
    LateWriteLoses(c, a, n, t, s);
  }

  /** Where sealed counts cover, counting a segment out leaves nothing behind. */
  lemma CoveredIsCounted(c: Cluster, a: Action)
    requires ReadSafe(c) && CountsCover(c)
    ensures CountedStep(c, a)
  {
    forall t | LeavesCounted(c, a, t) ensures Drained(c, t, Position(c.nodes[a.node], t)) {
      assert NodeReads(c, c.nodes[a.node]);
      LeaveByCount(c, c.nodes[a.node], t);
    }
  }

  // ----- Whole runs -----

  ghost predicate LosesNothingThroughout(c: Cluster, acts: seq<Action>) {
    forall i :: 0 <= i <= |acts| ==> LosesNothing(Run(c, acts[..i]))
  }

  ghost predicate TimelySteps(c: Cluster, acts: seq<Action>) {
    forall i :: 0 <= i < |acts| ==> TimelyStep(Run(c, acts[..i]), acts[i])
  }

  ghost predicate CountedSteps(c: Cluster, acts: seq<Action>) {
    forall i :: 0 <= i < |acts| ==> CountedStep(Run(c, acts[..i]), acts[i])
  }

  lemma {:induction false} StateLossless(ids: set<NodeId>, acts: seq<Action>, k: nat)
    requires k <= |acts| && TimelySteps(Init(ids), acts) && CountedSteps(Init(ids), acts)
    ensures LosesNothing(Run(Init(ids), acts[..k]))
  {
    if k == 0 {
      assert acts[..0] == [];
    } else {
      StateLossless(ids, acts, k - 1);
      var c := Run(Init(ids), acts[..k - 1]);
      RunReads(ids, acts[..k - 1]);
      RunPrefix(Init(ids), acts, k - 1);
      assert TimelyStep(c, acts[k - 1]) && CountedStep(c, acts[k - 1]);
      LosslessStepIff(c, acts[k - 1]);
    }
  }

  /** In every run: no cursor ever stands past an entry not handed out, exactly when nothing is ever written
      to a segment a cursor has passed, no overtaken "empty" answer is closed, and no segment is counted out
      while it holds such an entry. */
  lemma LosslessIff(ids: set<NodeId>, acts: seq<Action>)
    ensures LosesNothingThroughout(Init(ids), acts) <==> TimelySteps(Init(ids), acts) && CountedSteps(Init(ids), acts)
  {
    var c := Init(ids);
    if TimelySteps(c, acts) && CountedSteps(c, acts) {
      forall i | 0 <= i <= |acts| ensures LosesNothing(Run(c, acts[..i])) { StateLossless(ids, acts, i); }
    }
    if LosesNothingThroughout(c, acts) {
      forall i | 0 <= i < |acts| ensures TimelyStep(Run(c, acts[..i]), acts[i]) && CountedStep(Run(c, acts[..i]), acts[i]) {
        RunReads(ids, acts[..i]);
        RunPrefix(c, acts, i);
        assert LosesNothing(Run(c, acts[..i])) && LosesNothing(Run(c, acts[..i + 1]));
        LosslessStepIff(Run(c, acts[..i]), acts[i]);
      }
    }
  }

  /** Sealed counts that cover at the end of a run have covered throughout: WALs only grow, counts stay. */
  lemma CoverAtEnd(ids: set<NodeId>, acts: seq<Action>, i: nat)
    requires i <= |acts| && CountsCover(Run(Init(ids), acts))
    ensures CountsCover(Run(Init(ids), acts[..i]))
  {
    var c, d := Run(Init(ids), acts[..i]), Run(Init(ids), acts);
    RunExtends(Init(ids), acts, i);
    forall t, s ensures Covered(c, t, s) {
      if Sealed(c.log, t, s) {
        ReplayDescribed(c.log, t);
        HistoryGrows(c.log, d.log, t);
        ServedGrows(c, d, t, s);
        assert Covered(d, t, s);
      }
    }
  }

  /** With covering sealed counts the last condition takes care of itself. */
  lemma CoveredLosslessIff(ids: set<NodeId>, acts: seq<Action>)
    requires CountsCover(Run(Init(ids), acts))
    ensures LosesNothingThroughout(Init(ids), acts) <==> TimelySteps(Init(ids), acts)
  {
    forall i | 0 <= i < |acts| ensures CountedStep(Run(Init(ids), acts[..i]), acts[i]) {
      RunReads(ids, acts[..i]);
      CoverAtEnd(ids, acts, i);
      CoveredIsCounted(Run(Init(ids), acts[..i]), acts[i]);
    }
    LosslessIff(ids, acts);
  }

  /** No loss: with covering counts and timely steps, once the cursor of any node has moved past a segment,
      each entry of that segment has been handed out (and, by DeliveredOnceInOrder, only once). */
  lemma NoEntryLeftBehind(ids: set<NodeId>, acts: seq<Action>, n: NodeId, t: string, s: nat, index: nat)
    requires CountsCover(Run(Init(ids), acts)) && TimelySteps(Init(ids), acts)
    requires var c := Run(Init(ids), acts);
             n in c.nodes && 1 <= s < Position(c.nodes[n], t) && index < |Stored(c, t, s)|
    ensures Handed(Run(Init(ids), acts), WalKey(t, s), index)
  {
    var c := Run(Init(ids), acts);
    assert acts[..|acts|] == acts;
    CoveredLosslessIff(ids, acts);
    RunReads(ids, acts);
    assert LosesNothing(Run(Init(ids), acts[..|acts|]));
    DrainedIsHanded(c, n, t, s, index);
  }

  lemma DrainedIsHanded(c: Cluster, n: NodeId, t: string, s: nat, index: nat)
    requires DeliveriesOk(c) && LosesNothing(c) && n in c.nodes && 1 <= s < Position(c.nodes[n], t) && index < |Stored(c, t, s)|
    ensures Handed(c, WalKey(t, s), index)
  {
    assert NodeLossless(c, c.nodes[n]);
    assert Drained(c, t, s);
    var l := Leaders(c.log, t)[s - 1];
    assert index < Taken(c.nodes[l], WalKey(t, s));
  }

  /** Writers alone can see to it: when every rollover that commits carries a count no smaller than the
      segment it seals, and nothing is written to a sealed segment, counts cover and all steps are timely. */
  lemma FrozenIsTimely(ids: set<NodeId>, acts: seq<Action>)
    requires GoodRun(Init(ids), acts)
    ensures CountsCover(Run(Init(ids), acts)) && TimelySteps(Init(ids), acts)
  {
    forall i | 0 <= i <= |acts| ensures CountsCover(Run(Init(ids), acts[..i])) && LosesNothing(Run(Init(ids), acts[..i])) {
      GoodPrefix(ids, acts, i);
      RunKeeps(ids, acts[..i]);
      RunReads(ids, acts[..i]);
    }
    LosslessIff(ids, acts);
    assert acts[..|acts|] == acts;
  }

  lemma GoodPrefix(ids: set<NodeId>, acts: seq<Action>, i: nat)
    requires i <= |acts| && GoodRun(Init(ids), acts)
    ensures GoodRun(Init(ids), acts[..i])
  {
    forall j | 0 <= j < i ensures GoodStep(Run(Init(ids), acts[..i][..j]), acts[..i][j]) {
      assert acts[..i][..j] == acts[..j];
    }
  }
}
