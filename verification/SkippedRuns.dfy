/**
 Two runs, made of the code's own steps, in which a cursor passes an entry that is never handed out. In both
 every rollover carries a count that its proposer had tracked. In the first an append that passed its lease
 check writes after the sealing; in the second the same rollover commits twice, so that the second seals a
 segment with the count of the one before.
 */
module SkippedRuns {
  import opened Basics
  import opened Metadata
  import opened WalKeys
  import opened DataPlane
  import opened Reading
  import opened Lossless
  import opened SealedCounts

  // ----- A write after the sealing -----
  //
  // Node 1 leads segment 1 of topic "a" and appends "x"; its tracked count is then 1, the rollover limit
  // in this run. It has meanwhile checked its lease for a second append, "y". The rollover with the
  // tracked count commits, "y" is written, and node 1 reads the topic.

  const CREATE := CreateTopic("a", 1)
  const ROLL := RolloverTopic("a", 2, 1)

  function OneNode(log: seq<Cmd>, node: Node, delivered: seq<Delivery>): Cluster { Cluster(log, map[1 := node], delivered) }

  lemma Move(acts: seq<Action>, a: Action)
    ensures Run(Init({1}), acts + [a]) == Exec(Run(Init({1}), acts), a)
  {
    assert Front(acts + [a]) == acts;
  }

  lemma LocalMove(acts: seq<Action>, log: seq<Cmd>, node: Node, delivered: seq<Delivery>, step: Local, after: Node) returns (next: seq<Action>)
    requires Run(Init({1}), acts) == OneNode(log, node, delivered)
    requires LocalStep(log, 1, node, step) == after
    ensures next == acts + [At(1, step)] && Run(Init({1}), next) == OneNode(log, after, delivered)
  {
    next := acts + [At(1, step)];
    Move(acts, At(1, step));
  }

  lemma CreateView(log: seq<Cmd>)
    requires log == [CREATE]
    ensures Replay(log) == ClusterState(map["a" := NewTopic(1)], map[])
    ensures Leaders(log, "a") == [1] && Counts(log, "a") == []
    ensures LeaseSet(Replay(log), 1) == {WalKey("a", 1)}
  {
    assert Front(log) == [];
    var s := Replay(log);
    assert Replay([]) == EMPTY && s == Apply(EMPTY, CREATE);
    assert s.topics == map["a" := NewTopic(1)];
    assert s.topics.Keys == {"a"} && s.topics["a"].leader == 1 && s.topics["a"].current == 1;
    assert forall p :: p in Owned(s, 1) ==> p == ("a", 1);
    assert ("a", s.topics["a"].current) in Owned(s, 1);
    var p := ("a", 1);
    assert p in Owned(s, 1) && WalKey(p.0, p.1) in LeaseSet(s, 1);
  }

  lemma RolledView(log: seq<Cmd>)
    requires log == [CREATE, ROLL]
    ensures Replay(log) == ClusterState(map["a" := TopicState(2, 2, 1, map[1 := 1], map[1 := 1, 2 := 2])], map[])
    ensures Leaders(log, "a") == [1, 2] && Counts(log, "a") == [1]
  {
    assert Front(log) == [CREATE];
    CreateView(Front(log));
    assert Roll(NewTopic(1), 2, 1) == TopicState(2, 2, 1, map[1 := 1], map[1 := 1, 2 := 2]);
  }

  /** Node 1 with the lease of segment 1. */
  function Leased(key: string): Node { Node(1, {{key}}, {key}, map[], map[], map[], map[], map[], map[], None) }

  lemma LeaseStage(key: string) returns (acts: seq<Action>)
    requires key == WalKey("a", 1)
    ensures Run(Init({1}), acts) == OneNode([CREATE], Leased(key), [])
  {
    var log := [CREATE];
    acts := [];
    assert Init({1}) == OneNode([], FRESH, []);
    Move(acts, Commit(CREATE));
    acts := acts + [Commit(CREATE)];
    assert [] + [CREATE] == log;
    acts := LocalMove(acts, log, FRESH, [], ApplyNext, FRESH.(applied := 1));
    CreateView(log);
    assert log[..1] == log;
    acts := LocalMove(acts, log, FRESH.(applied := 1), [], ComputeLeases, FRESH.(applied := 1, computed := {{key}}));
    acts := LocalMove(acts, log, FRESH.(applied := 1, computed := {{key}}), [], InstallLeases({key}), Leased(key));
  }

  /** Node 1 with an append of "x" under way. */
  function Appending(key: string, phase: Phase): Node {
    Leased(key).(appends := map[0 := Append(key, "x", phase)],
                 locks := if phase == Locked || phase == Written then map[key := 0] else map[],
                 wal := if phase == Written || phase == Released then map[key := ["x"]] else map[])
  }

  lemma AppendSteps(key: string)
    ensures AppendStep(Leased(key), CheckLease(0, key, "x")) == Appending(key, Checked)
    ensures AppendStep(Appending(key, Checked), TakeLock(0)) == Appending(key, Locked)
  {
  }

  lemma WriteSteps(key: string)
    ensures AppendStep(Appending(key, Locked), WriteEntry(0)) == Appending(key, Written)
    ensures AppendStep(Appending(key, Written), ReleaseLock(0)) == Appending(key, Released)
  {
    assert map[key := 0] - {key} == map[];
    assert [] + ["x"] == ["x"];
  }

  /** "x" has been appended and counted, and the append of "y" has reached a phase. */
  function SecondAppend(key: string, phase: Phase, applied: nat): Node {
    Leased(key).(applied := applied,
                 appends := map[1 := Append(key, "y", phase)],
                 locks := if phase == Checked then map[] else map[key := 1],
                 offsets := map[key := 1],
                 wal := map[key := if phase == Written then ["x", "y"] else ["x"]])
  }

  /** "x" has been appended and counted. */
  function CountedOne(key: string): Node { Leased(key).(offsets := map[key := 1], wal := map[key := ["x"]]) }

  lemma SecondSteps(key: string)
    ensures AppendStep(Appending(key, Released), CountAppend(0)) == CountedOne(key)
    ensures AppendStep(CountedOne(key), CheckLease(1, key, "y")) == SecondAppend(key, Checked, 1)
  {
    assert map[0 := Append(key, "x", Released)] - {0} == map[];
  }

  lemma SecondWrite(key: string)
    ensures AppendStep(SecondAppend(key, Checked, 1), TakeLock(1)) == SecondAppend(key, Locked, 1)
    ensures AppendStep(SecondAppend(key, Locked, 1), WriteEntry(1)) == SecondAppend(key, Written, 1)
  {
    assert ["x"] + ["y"] == ["x", "y"];
  }

  lemma CountedStage(key: string) returns (acts: seq<Action>)
    requires key == WalKey("a", 1)
    ensures Run(Init({1}), acts) == OneNode([CREATE], CountedOne(key), [])
  {
    var log := [CREATE];
    acts := LeaseStage(key);
    AppendSteps(key);
    WriteSteps(key);
    SecondSteps(key);
    acts := LocalMove(acts, log, Leased(key), [], CheckLease(0, key, "x"), Appending(key, Checked));
    acts := LocalMove(acts, log, Appending(key, Checked), [], TakeLock(0), Appending(key, Locked));
    acts := LocalMove(acts, log, Appending(key, Locked), [], WriteEntry(0), Appending(key, Written));
    acts := LocalMove(acts, log, Appending(key, Written), [], ReleaseLock(0), Appending(key, Released));
    acts := LocalMove(acts, log, Appending(key, Released), [], CountAppend(0), CountedOne(key));
  }

  lemma AppendStage(key: string) returns (acts: seq<Action>)
    requires key == WalKey("a", 1)
    ensures Run(Init({1}), acts) == OneNode([CREATE], SecondAppend(key, Checked, 1), [])
  {
    acts := CountedStage(key);
    SecondSteps(key);
    acts := LocalMove(acts, [CREATE], CountedOne(key), [], CheckLease(1, key, "y"), SecondAppend(key, Checked, 1));
  }

  lemma LateStage(key: string) returns (acts: seq<Action>, at: nat)
    requires key == WalKey("a", 1)
    ensures Run(Init({1}), acts) == OneNode([CREATE, ROLL], SecondAppend(key, Written, 2), [])
    ensures at < |acts| && acts[at] == Commit(ROLL)
    ensures Run(Init({1}), acts[..at]) == OneNode([CREATE], SecondAppend(key, Checked, 1), [])
  {
    var before := AppendStage(key);
    at := |before|;
    Move(before, Commit(ROLL));
    assert [CREATE] + [ROLL] == [CREATE, ROLL];
    acts := LateMoves(before + [Commit(ROLL)], key, [CREATE, ROLL]);
    assert acts[..at] == before;
  }

  lemma LateMoves(before: seq<Action>, key: string, log: seq<Cmd>) returns (acts: seq<Action>)
    requires |log| == 2 && Run(Init({1}), before) == OneNode(log, SecondAppend(key, Checked, 1), [])
    ensures before <= acts && Run(Init({1}), acts) == OneNode(log, SecondAppend(key, Written, 2), [])
  {
    SecondWrite(key);
    acts := LocalMove(before, log, SecondAppend(key, Checked, 1), [], TakeLock(1), SecondAppend(key, Locked, 1));
    acts := LocalMove(acts, log, SecondAppend(key, Locked, 1), [], WriteEntry(1), SecondAppend(key, Written, 1));
    acts := LocalMove(acts, log, SecondAppend(key, Written, 1), [], ApplyNext, SecondAppend(key, Written, 2));
  }

  /** Node 1 while it reads segment 1. */
  function Asking(key: string): Node {
    SecondAppend(key, Written, 2).(cursors := map["a" := Cursor(1, 0)], reading := Some(Read("a", 1, 2, 1, None)))
  }

  function Told(key: string): Node {
    Asking(key).(consumed := map[key := 1], reading := Some(Read("a", 1, 2, 1, Some(Entry("x")))))
  }

  /** The node when its cursor stands at a position. */
  function Passed(key: string, cursor: Cursor): Node {
    SecondAppend(key, Written, 2).(consumed := map[key := 1], cursors := map["a" := cursor])
  }

  lemma ReadSteps(key: string, s: ClusterState)
    requires key == WalKey("a", 1)
    requires s == ClusterState(map["a" := TopicState(2, 2, 1, map[1 := 1], map[1 := 1, 2 := 2])], map[])
    ensures BeginReadStep(s, SecondAppend(key, Written, 2), "a") == Asking(key)
    ensures FinishReadStep(s, Told(key)) == Passed(key, Cursor(1, 1))
    ensures BeginReadStep(s, Passed(key, Cursor(1, 1)), "a") == Passed(key, Cursor(2, 0))
  {
  }

  lemma ServeStep(key: string, log: seq<Cmd>)
    requires key == WalKey("a", 1)
    ensures Serve(OneNode(log, Asking(key), []), 1) == OneNode(log, Told(key), [Delivery(1, key, 0, "x")])
  {
  }

  /** One step of node 1, with its metadata view given. */
  lemma ViewMove(acts: seq<Action>, log: seq<Cmd>, s: ClusterState, node: Node, delivered: seq<Delivery>, step: Local, after: Node) returns (next: seq<Action>)
    requires Run(Init({1}), acts) == OneNode(log, node, delivered)
    requires Prefix(log, node) == log && Replay(log) == s
    requires (step.BeginRead? && BeginReadStep(s, node, step.topic) == after) || (step.FinishRead? && FinishReadStep(s, node) == after)
    ensures next == acts + [At(1, step)] && Run(Init({1}), next) == OneNode(log, after, delivered)
  {
    next := LocalMove(acts, log, node, delivered, step, after);
  }

  /** The first read of "a" has been answered with "x". */
  lemma ToldStage(key: string) returns (acts: seq<Action>, at: nat)
    requires key == WalKey("a", 1)
    ensures at < |acts| && acts[at] == Commit(ROLL)
    ensures Run(Init({1}), acts[..at]) == OneNode([CREATE], SecondAppend(key, Checked, 1), [])
    ensures Run(Init({1}), acts) == OneNode([CREATE, ROLL], Told(key), [Delivery(1, key, 0, "x")])
  {
    var log := [CREATE, ROLL];
    var before;
    before, at := LateStage(key);
    RolledView(log);
    ReadSteps(key, Replay(log));
    ServeStep(key, log);
    acts := ViewMove(before, log, Replay(log), SecondAppend(key, Written, 2), [], BeginRead("a"), Asking(key));
    Move(acts, ServeRead(1));
    acts := acts + [ServeRead(1)];
    assert acts[..at] == before[..at];
  }

  lemma ReadStage(key: string) returns (acts: seq<Action>, at: nat)
    requires key == WalKey("a", 1)
    ensures at < |acts| && acts[at] == Commit(ROLL)
    ensures Run(Init({1}), acts[..at]) == OneNode([CREATE], SecondAppend(key, Checked, 1), [])
    ensures Run(Init({1}), acts) == OneNode([CREATE, ROLL], Passed(key, Cursor(2, 0)), [Delivery(1, key, 0, "x")])
  {
    var log, d := [CREATE, ROLL], [Delivery(1, key, 0, "x")];
    var before;
    before, at := ToldStage(key);
    RolledView(log);
    ReadSteps(key, Replay(log));
    acts := ViewMove(before, log, Replay(log), Told(key), d, FinishRead, Passed(key, Cursor(1, 1)));
    acts := ViewMove(acts, log, Replay(log), Passed(key, Cursor(1, 1)), d, BeginRead("a"), Passed(key, Cursor(2, 0)));
    assert acts[..at] == before[..at];
  }

  lemma PassedFacts(key: string, c: Cluster)
    requires key == WalKey("a", 1)
    requires c == OneNode([CREATE, ROLL], Passed(key, Cursor(2, 0)), [Delivery(1, key, 0, "x")])
    ensures Stored(c, "a", 1) == ["x", "y"] && Counts(c.log, "a") == [1]
    ensures !Handed(c, key, 1) && !CountsExact(c)
  {
    RolledView(c.log);
    assert !ExactAt(c, "a", 1);
  }

  /** The lease check does not fence the write: the cursor has passed segment 1 while "y", stored there,
      was never handed out. The rollover at position `at` carried the tracked count of its leader. */
  lemma LateWriteIsSkipped() returns (acts: seq<Action>, at: nat)
    ensures at < |acts| && acts[at] == Commit(ROLL)
    ensures var c := Run(Init({1}), acts[..at]);
            1 in c.nodes && Get(c.nodes[1].offsets, WalKey("a", 1), 0) == ROLL.count
    ensures var c := Run(Init({1}), acts);
            && Stored(c, "a", 1) == ["x", "y"] && Counts(c.log, "a") == [1]
            && 1 in c.nodes && Get(c.nodes[1].cursors, "a", Cursor(0, 0)).segment == 2
            && !Handed(c, WalKey("a", 1), 1) && !CountsExact(c)
  {
    acts, at := ReadStage(WalKey("a", 1));
    PassedFacts(WalKey("a", 1), Run(Init({1}), acts));
  }

  // ----- A rollover that commits twice -----
  //
  // Node 1 is the only voter. It leads segment 1 of topic "a", appends "x" and tracks 1, the limit in this run.
  // Both of its proposers propose the rollover with that count. The first commits and seals segment 1; node 1
  // takes the lease of segment 2 and checks it for an append of "y". The second commits and seals segment 2
  // with the count of segment 1. Node 1 reads "x", finds segment 2 empty and moves on; then "y" is written.

  const SAME := RolloverTopic("a", 1, 1)

  lemma OnceView(log: seq<Cmd>)
    requires log == [CREATE, SAME]
    ensures Replay(log) == ClusterState(map["a" := TopicState(2, 1, 1, map[1 := 1], map[1 := 1, 2 := 1])], map[])
    ensures Leaders(log, "a") == [1, 1] && Counts(log, "a") == [1]
    ensures LeaseSet(Replay(log), 1) == {WalKey("a", 2)}
  {
    assert Front(log) == [CREATE];
    CreateView(Front(log));
    assert Roll(NewTopic(1), 1, 1) == TopicState(2, 1, 1, map[1 := 1], map[1 := 1, 2 := 1]);
    var s := Replay(log);
    assert s.topics.Keys == {"a"} && s.topics["a"].leader == 1 && s.topics["a"].current == 2;
    assert forall p :: p in Owned(s, 1) ==> p == ("a", 2);
    assert ("a", s.topics["a"].current) in Owned(s, 1);
    var p := ("a", 2);
    assert p in Owned(s, 1) && WalKey(p.0, p.1) in LeaseSet(s, 1);
  }

  /** The topic after both rollovers. */
  const TWICE := TopicState(3, 1, 2, map[1 := 1, 2 := 1], map[1 := 1, 2 := 1, 3 := 1])

  lemma TwiceView(log: seq<Cmd>)
    requires log == [CREATE, SAME, SAME]
    ensures Replay(log) == ClusterState(map["a" := TWICE], map[])
    ensures Leaders(log, "a") == [1, 1, 1] && Counts(log, "a") == [1, 1]
  {
    assert Front(log) == [CREATE, SAME];
    OnceView(Front(log));
    assert Roll(TopicState(2, 1, 1, map[1 := 1], map[1 := 1, 2 := 1]), 1, 1) == TWICE;
  }

  /** Node 1 with an append of "y" to segment 2 under way. */
  function Late(k1: string, k2: string, phase: Phase, applied: nat): Node {
    Node(applied, {{k1}, {k2}}, {k2}, map[1 := Append(k2, "y", phase)],
         if phase == Checked then map[] else map[k2 := 1], map[k1 := 1],
         if phase == Written then map[k1 := ["x"], k2 := ["y"]] else map[k1 := ["x"]],
         map[], map[], None)
  }

  /** The same node while it reads. */
  function LateReader(k1: string, k2: string, phase: Phase, taken: bool, cursor: Cursor, reading: Option<Read>): Node {
    Late(k1, k2, phase, 3).(consumed := if taken then map[k1 := 1] else map[], cursors := map["a" := cursor], reading := reading)
  }

  lemma OnceStage(k1: string, k2: string) returns (acts: seq<Action>, at: nat)
    requires k1 == WalKey("a", 1) && k2 == WalKey("a", 2)
    ensures at < |acts| && acts[at] == Commit(SAME)
    ensures Run(Init({1}), acts[..at]) == OneNode([CREATE], CountedOne(k1), [])
    ensures Run(Init({1}), acts) == OneNode([CREATE, SAME], Late(k1, k2, Checked, 2), [])
  {
    var before := CountedStage(k1);
    at := |before|;
    Move(before, Commit(SAME));
    assert [CREATE] + [SAME] == [CREATE, SAME];
    acts := LocalMove(before + [Commit(SAME)], [CREATE, SAME], CountedOne(k1), [], ApplyNext, CountedOne(k1).(applied := 2));
    acts := SecondLease(acts, k1, k2, [CREATE, SAME]);
    assert acts[..at] == before;
  }

  /** Node 1 takes the lease of segment 2 and checks it for an append of "y". */
  lemma SecondLease(before: seq<Action>, k1: string, k2: string, log: seq<Cmd>) returns (acts: seq<Action>)
    requires k1 == WalKey("a", 1) && k2 == WalKey("a", 2) && log == [CREATE, SAME]
    requires Run(Init({1}), before) == OneNode(log, CountedOne(k1).(applied := 2), [])
    ensures before <= acts && Run(Init({1}), acts) == OneNode(log, Late(k1, k2, Checked, 2), [])
  {
    var node := CountedOne(k1).(applied := 2);
    var computed := node.(computed := {{k1}, {k2}});
    var leased := computed.(leases := {k2});
    OnceView(log);
    ComputeStep(log, node, k2);
    assert {{k1}} + {{k2}} == {{k1}, {k2}};
    acts := LocalMove(before, log, node, [], ComputeLeases, computed);
    InstallStep(log, computed, {k2});
    acts := LocalMove(acts, log, computed, [], InstallLeases({k2}), leased);
    CheckStep(log, leased, k2, "y");
    acts := LocalMove(acts, log, leased, [], CheckLease(1, k2, "y"), Late(k1, k2, Checked, 2));
  }

  lemma InstallStep(log: seq<Cmd>, node: Node, keys: set<string>)
    requires keys in node.computed
    ensures LocalStep(log, 1, node, InstallLeases(keys)) == node.(leases := keys)
  {
  }

  lemma CheckStep(log: seq<Cmd>, node: Node, key: string, data: Payload)
    requires key in node.leases && node.appends == map[]
    ensures LocalStep(log, 1, node, CheckLease(1, key, data)) == node.(appends := map[1 := Append(key, data, Checked)])
  {
  }

  lemma ComputeStep(log: seq<Cmd>, node: Node, key: string)
    requires node.applied == |log| && LeaseSet(Replay(log), 1) == {key}
    ensures LocalStep(log, 1, node, ComputeLeases) == node.(computed := node.computed + {{key}})
  {
    assert log[..|log|] == log;
  }

  lemma TwiceStage(k1: string, k2: string) returns (acts: seq<Action>, at1: nat, at2: nat)
    requires k1 == WalKey("a", 1) && k2 == WalKey("a", 2)
    ensures at1 < at2 < |acts| && acts[at1] == Commit(SAME) && acts[at2] == Commit(SAME)
    ensures Run(Init({1}), acts[..at1]) == OneNode([CREATE], CountedOne(k1), [])
    ensures Run(Init({1}), acts[..at2]) == OneNode([CREATE, SAME], Late(k1, k2, Checked, 2), [])
    ensures Run(Init({1}), acts) == OneNode([CREATE, SAME, SAME], Late(k1, k2, Checked, 3), [])
  {
    var before;
    before, at1 := OnceStage(k1, k2);
    at2 := |before|;
    Move(before, Commit(SAME));
    assert [CREATE, SAME] + [SAME] == [CREATE, SAME, SAME];
    acts := LocalMove(before + [Commit(SAME)], [CREATE, SAME, SAME], Late(k1, k2, Checked, 2), [], ApplyNext, Late(k1, k2, Checked, 3));
    assert acts[..at1] == before[..at1] && acts[..at2] == before;
  }

  lemma FirstReadSteps(k1: string, k2: string, s: ClusterState, log: seq<Cmd>)
    requires k1 == WalKey("a", 1) && k2 == WalKey("a", 2) && s == ClusterState(map["a" := TWICE], map[])
    ensures var r := Read("a", 1, 3, 1, None);
            && BeginReadStep(s, Late(k1, k2, Checked, 3), "a") == LateReader(k1, k2, Checked, false, Cursor(1, 0), Some(r))
            && Serve(OneNode(log, LateReader(k1, k2, Checked, false, Cursor(1, 0), Some(r)), []), 1)
               == OneNode(log, LateReader(k1, k2, Checked, true, Cursor(1, 0), Some(r.(reply := Some(Entry("x"))))), [Delivery(1, k1, 0, "x")])
            && FinishReadStep(s, LateReader(k1, k2, Checked, true, Cursor(1, 0), Some(r.(reply := Some(Entry("x"))))))
               == LateReader(k1, k2, Checked, true, Cursor(1, 1), None)
  {
  }

  lemma SecondAskSteps(k1: string, k2: string, s: ClusterState)
    requires s == ClusterState(map["a" := TWICE], map[])
    ensures BeginReadStep(s, LateReader(k1, k2, Checked, true, Cursor(1, 1), None), "a")
            == LateReader(k1, k2, Checked, true, Cursor(2, 0), None)
    ensures BeginReadStep(s, LateReader(k1, k2, Checked, true, Cursor(2, 0), None), "a")
            == LateReader(k1, k2, Checked, true, Cursor(2, 0), Some(Read("a", 2, 3, 1, None)))
  {
  }

  lemma SecondAnswerSteps(k1: string, k2: string, s: ClusterState, log: seq<Cmd>, d: seq<Delivery>)
    requires k2 == WalKey("a", 2) && k1 != k2 && s == ClusterState(map["a" := TWICE], map[])
    ensures var r := Read("a", 2, 3, 1, None);
            && Serve(OneNode(log, LateReader(k1, k2, Checked, true, Cursor(2, 0), Some(r)), d), 1)
               == OneNode(log, LateReader(k1, k2, Checked, true, Cursor(2, 0), Some(r.(reply := Some(Empty)))), d)
            && FinishReadStep(s, LateReader(k1, k2, Checked, true, Cursor(2, 0), Some(r.(reply := Some(Empty)))))
               == LateReader(k1, k2, Checked, true, Cursor(3, 0), None)
  {
  }

  lemma OverdueWrite(k1: string, k2: string)
    requires k1 != k2
    ensures AppendStep(LateReader(k1, k2, Checked, true, Cursor(3, 0), None), TakeLock(1))
            == LateReader(k1, k2, Locked, true, Cursor(3, 0), None)
    ensures AppendStep(LateReader(k1, k2, Locked, true, Cursor(3, 0), None), WriteEntry(1))
            == LateReader(k1, k2, Written, true, Cursor(3, 0), None)
  {
    assert [] + ["y"] == ["y"];
  }

  /** "x" is read from segment 1. */
  lemma FirstRead(before: seq<Action>, k1: string, k2: string, log: seq<Cmd>) returns (acts: seq<Action>)
    requires k1 == WalKey("a", 1) && k2 == WalKey("a", 2) && log == [CREATE, SAME, SAME]
    requires Run(Init({1}), before) == OneNode(log, Late(k1, k2, Checked, 3), [])
    ensures before <= acts
    ensures Run(Init({1}), acts) == OneNode(log, LateReader(k1, k2, Checked, true, Cursor(1, 1), None), [Delivery(1, k1, 0, "x")])
  {
    TwiceView(log);
    var s, r, d := Replay(log), Read("a", 1, 3, 1, None), [Delivery(1, k1, 0, "x")];
    FirstReadSteps(k1, k2, s, log);
    acts := ViewMove(before, log, s, Late(k1, k2, Checked, 3), [], BeginRead("a"),
                     LateReader(k1, k2, Checked, false, Cursor(1, 0), Some(r)));
    Move(acts, ServeRead(1));
    acts := ViewMove(acts + [ServeRead(1)], log, s, LateReader(k1, k2, Checked, true, Cursor(1, 0), Some(r.(reply := Some(Entry("x"))))), d,
                     FinishRead, LateReader(k1, k2, Checked, true, Cursor(1, 1), None));
  }

  /** Segment 2 is found empty and left, and "y" is written to it. */
  lemma SecondRead(before: seq<Action>, k1: string, k2: string, log: seq<Cmd>, d: seq<Delivery>) returns (acts: seq<Action>)
    requires k1 == WalKey("a", 1) && k2 == WalKey("a", 2) && k1 != k2 && log == [CREATE, SAME, SAME]
    requires Run(Init({1}), before) == OneNode(log, LateReader(k1, k2, Checked, true, Cursor(1, 1), None), d)
    ensures before <= acts
    ensures Run(Init({1}), acts) == OneNode(log, LateReader(k1, k2, Checked, true, Cursor(3, 0), None), d)
  {
    TwiceView(log);
    var s, r := Replay(log), Read("a", 2, 3, 1, None);
    SecondAskSteps(k1, k2, s);
    SecondAnswerSteps(k1, k2, s, log, d);
    acts := ViewMove(before, log, s, LateReader(k1, k2, Checked, true, Cursor(1, 1), None), d, BeginRead("a"),
                     LateReader(k1, k2, Checked, true, Cursor(2, 0), None));
    acts := ViewMove(acts, log, s, LateReader(k1, k2, Checked, true, Cursor(2, 0), None), d, BeginRead("a"),
                     LateReader(k1, k2, Checked, true, Cursor(2, 0), Some(r)));
    Move(acts, ServeRead(1));
    acts := ViewMove(acts + [ServeRead(1)], log, s, LateReader(k1, k2, Checked, true, Cursor(2, 0), Some(r.(reply := Some(Empty)))), d,
                     FinishRead, LateReader(k1, k2, Checked, true, Cursor(3, 0), None));
  }

  lemma OverdueMoves(before: seq<Action>, k1: string, k2: string, log: seq<Cmd>, d: seq<Delivery>) returns (acts: seq<Action>)
    requires k1 != k2
    requires Run(Init({1}), before) == OneNode(log, LateReader(k1, k2, Checked, true, Cursor(3, 0), None), d)
    ensures before <= acts && Run(Init({1}), acts) == OneNode(log, LateReader(k1, k2, Written, true, Cursor(3, 0), None), d)
  {
    OverdueWrite(k1, k2);
    acts := LocalMove(before, log, LateReader(k1, k2, Checked, true, Cursor(3, 0), None), d, TakeLock(1),
                      LateReader(k1, k2, Locked, true, Cursor(3, 0), None));
    acts := LocalMove(acts, log, LateReader(k1, k2, Locked, true, Cursor(3, 0), None), d, WriteEntry(1),
                      LateReader(k1, k2, Written, true, Cursor(3, 0), None));
  }

  lemma OverdueStage(k1: string, k2: string) returns (acts: seq<Action>, at1: nat, at2: nat)
    requires k1 == WalKey("a", 1) && k2 == WalKey("a", 2) && k1 != k2
    ensures at1 < at2 < |acts| && acts[at1] == Commit(SAME) && acts[at2] == Commit(SAME)
    ensures Run(Init({1}), acts[..at1]) == OneNode([CREATE], CountedOne(k1), [])
    ensures Run(Init({1}), acts[..at2]) == OneNode([CREATE, SAME], Late(k1, k2, Checked, 2), [])
    ensures Run(Init({1}), acts)
            == OneNode([CREATE, SAME, SAME], LateReader(k1, k2, Written, true, Cursor(3, 0), None), [Delivery(1, k1, 0, "x")])
  {
    var log, d := [CREATE, SAME, SAME], [Delivery(1, k1, 0, "x")];
    var before;
    before, at1, at2 := TwiceStage(k1, k2);
    acts := FirstRead(before, k1, k2, log);
    acts := SecondRead(acts, k1, k2, log, d);
    acts := OverdueMoves(acts, k1, k2, log, d);
    assert acts[..at1] == before[..at1] && acts[..at2] == before[..at2];
  }

  lemma TwiceFacts(k1: string, k2: string, c: Cluster)
    requires k1 == WalKey("a", 1) && k2 == WalKey("a", 2) && k1 != k2
    requires c == OneNode([CREATE, SAME, SAME], LateReader(k1, k2, Written, true, Cursor(3, 0), None), [Delivery(1, k1, 0, "x")])
    ensures Stored(c, "a", 2) == ["y"] && Counts(c.log, "a") == [1, 1]
    ensures CountsCover(c) && !Handed(c, k2, 0) && !LosesNothing(c)
  {
    TwiceView(c.log);
    assert Stored(c, "a", 1) == ["x"];
    forall t, s ensures Covered(c, t, s) {
      if t != "a" { NoOtherTopic(t); }
    }
    NotLossless(c, 1, "a", 2);
  }

  lemma NoOtherTopic(t: string)
    requires t != "a"
    ensures Leaders([CREATE, SAME, SAME], t) == []
  {
    var l1, l2, l3 := [CREATE], [CREATE, SAME], [CREATE, SAME, SAME];
    assert Front(l1) == [] && Front(l2) == l1 && Front(l3) == l2;
    assert Leaders(l1, t) == [] && Leaders(l2, t) == [];
  }

  /** Covering counts are not enough: each rollover carries what node 1 tracks for segment 1, but the second
      one seals segment 2. That count covers segment 2 to the end of the run, and "y" is lost. */
  lemma CoveringCountIsNotEnough() returns (acts: seq<Action>, at1: nat, at2: nat)
    ensures at1 < at2 < |acts| && acts[at1] == Commit(SAME) && acts[at2] == Commit(SAME)
    ensures var c := Run(Init({1}), acts[..at1]);
            Leaders(c.log, "a") == [1] && 1 in c.nodes && Get(c.nodes[1].offsets, WalKey("a", 1), 0) == SAME.count
    ensures var c := Run(Init({1}), acts[..at2]);
            Leaders(c.log, "a") == [1, 1] && 1 in c.nodes && Get(c.nodes[1].offsets, WalKey("a", 1), 0) == SAME.count
    ensures var c := Run(Init({1}), acts);
            && Stored(c, "a", 2) == ["y"] && Counts(c.log, "a") == [1, 1] && CountsCover(c)
            && 1 in c.nodes && Position(c.nodes[1], "a") == 3
            && !Handed(c, WalKey("a", 2), 0) && !LosesNothing(c)
  {
    var k1, k2 := WalKey("a", 1), WalKey("a", 2);
    if k1 == k2 { WalKeyInjective("a", 1, "a", 2); }
    acts, at1, at2 := OverdueStage(k1, k2);
    CreateView([CREATE]);
    OnceView([CREATE, SAME]);
    TwiceFacts(k1, k2, Run(Init({1}), acts));
  }
}
