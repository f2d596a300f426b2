/**
 Read progress: where sealed counts cover what is stored, a node that goes on reading a topic gets an entry
 as long as one of the segments it knows of holds one that was not handed out
 (distributed-walrus/src/controller/mod.rs `read_one_for_topic`).
 */
module Progress {
  import opened Basics
  import opened Metadata
  import opened WalKeys
  import opened DataPlane
  import opened Reading

  /** The steps of one node reading one topic. */
  predicate ReadAction(n: NodeId, t: string, a: Action) {
    a == At(n, BeginRead(t)) || a == At(n, FinishRead) || a == ServeRead(n)
  }

  /** Reading steps seal nothing and write nothing. */
  lemma ReadActionGood(c: Cluster, n: NodeId, t: string, a: Action)
    requires ReadAction(n, t, a) && ReadSafe(c) && CountsCover(c)
    ensures ReadSafe(Exec(c, a)) && CountsCover(Exec(c, a))
  {
    assert GoodStep(c, a);
    ExecReads(c, a);
    CoverStep(c, a);
  }

  lemma EmptyServeStands(c: Cluster, n: NodeId)
    requires n in c.nodes && forall r :: !HandsOut(c, n, r)
    ensures StoresStand(c, Serve(c, n), n)
  {
    NoHandOutShape(c, n);
    ServeFrame(c, n, n);
  }

  lemma RunOne(c: Cluster, a: Action)
    ensures Run(c, [a]) == Exec(c, a)
  {
    assert Front([a]) == [];
  }

  /** An entry waits in segment `s` of `t`, which node `n` knows of, and every leader can be reached. */
  ghost predicate Waits(c: Cluster, n: NodeId, t: string, s: nat) {
    && n in c.nodes && 1 <= s <= |Leaders(Prefix(c.log, c.nodes[n]), t)| && Served(c, t, s) < |Stored(c, t, s)|
    && forall l :: l in Leaders(c.log, t) ==> l in c.nodes
  }

  /** The node is not in the middle of a read, and its cursor is at or before segment `s`. */
  predicate Idle(node: Node, t: string, s: nat) {
    node.reading.None? && StartCursor(node.cursors, t).segment <= s
  }

  /** The next entry the node was given is one of topic `t`, of no segment behind `s`. */
  ghost predicate GotOne(c: Cluster, d: Cluster, n: NodeId, t: string, s: nat) {
    exists j, k, data :: 1 <= j <= s && d.delivered == c.delivered + [Delivery(n, WalKey(t, j), k, data)]
  }

  /** The cursor has moved on by one segment, and nothing else has happened. */
  ghost predicate MovedOn(c: Cluster, d: Cluster, n: NodeId, t: string, s: nat) {
    && StoresStand(c, d, n) && n in c.nodes && n in d.nodes && Idle(d.nodes[n], t, s)
    && StartCursor(d.nodes[n].cursors, t).segment == StartCursor(c.nodes[n].cursors, t).segment + 1
  }

  ghost predicate Turned(c: Cluster, d: Cluster, n: NodeId, t: string, s: nat) {
    GotOne(c, d, n, t, s) || MovedOn(c, d, n, t, s)
  }

  /** What the node's view says of the topic and of its cursor. */
  lemma CursorInView(c: Cluster, n: NodeId, t: string, s: nat)
    requires ReadSafe(c) && Waits(c, n, t, s) && Idle(c.nodes[n], t, s)
    ensures var view, cursor := Replay(Prefix(c.log, c.nodes[n])), StartCursor(c.nodes[n].cursors, t);
            && t in view.topics && s <= view.topics[t].current <= |Leaders(c.log, t)|
            && 1 <= cursor.segment <= s
            && Route(view, t, cursor.segment) == Leaders(c.log, t)[cursor.segment - 1]
  {
    var node := c.nodes[n];
    var p := Prefix(c.log, node);
    assert NodeReads(c, node);
    ReplayDescribed(p, t);
    HistoryGrows(p, c.log, t);
    assert t in node.cursors ==> CursorOk(c, node, t);
    ReplayedViewOk(c, node, t);
  }

  /** The cursor has counted its segment out and moves on. */
  lemma CountedTurn(c: Cluster, n: NodeId, t: string, s: nat)
    requires Waits(c, n, t, s) && Idle(c.nodes[n], t, s) && Drained(c, t, StartCursor(c.nodes[n].cursors, t).segment)
    requires var view := Replay(Prefix(c.log, c.nodes[n]));
             t in view.topics && CountedOut(view, t, StartCursor(c.nodes[n].cursors, t))
    ensures MovedOn(c, Exec(c, At(n, BeginRead(t))), n, t, s)
  {
    BeginStands(c, n, t);
  }

  /** Finishing after an empty answer about a sealed segment moves the cursor on. */
  lemma FinishEmpty(c: Cluster, n: NodeId, r: Read)
    requires n in c.nodes && c.nodes[n].reading == Some(r) && r.reply == Some(Empty) && r.segment < r.current
    requires r.topic in c.nodes[n].cursors && c.nodes[n].cursors[r.topic].segment >= 1
    ensures var d := Exec(c, At(n, FinishRead));
            && StoresStand(c, d, n) && d.nodes[n].reading.None?
            && StartCursor(d.nodes[n].cursors, r.topic).segment == c.nodes[n].cursors[r.topic].segment + 1
  {
    var view := Replay(Prefix(c.log, c.nodes[n]));
    FinishReadShape(view, c.nodes[n], r.topic);
    FinishStands(c, n);
  }

  lemma StandsOn(b: Cluster, c: Cluster, d: Cluster, n: NodeId)
    requires StoresStand(b, c, n) && StoresStand(c, d, n)
    ensures StoresStand(b, d, n)
  {
  }

  /** The read a turn sends. */
  function Asked(c: Cluster, n: NodeId, t: string): Read
    requires n in c.nodes && t in Replay(Prefix(c.log, c.nodes[n])).topics
  {
    var view, cursor := Replay(Prefix(c.log, c.nodes[n])), StartCursor(c.nodes[n].cursors, t);
    Read(t, cursor.segment, view.topics[t].current, Route(view, t, cursor.segment), None)
  }

  lemma BeginAsks(c: Cluster, n: NodeId, t: string)
    requires n in c.nodes && c.nodes[n].reading.None? && t in Replay(Prefix(c.log, c.nodes[n])).topics
    requires !CountedOut(Replay(Prefix(c.log, c.nodes[n])), t, StartCursor(c.nodes[n].cursors, t))
    ensures var d := Exec(c, At(n, BeginRead(t)));
            && StoresStand(c, d, n) && d.nodes[n].reading == Some(Asked(c, n, t))
            && t in d.nodes[n].cursors && d.nodes[n].cursors[t] == StartCursor(c.nodes[n].cursors, t)
  {
    BeginStands(c, n, t);
  }

  lemma RunTwo(c: Cluster, a: Action, b: Action)
    ensures Run(c, [a] + [b]) == Exec(Exec(c, a), b)
  {
    RunConcat(c, [a], [b]);
    RunOne(c, a);
    RunOne(Exec(c, a), b);
  }

  /** Two steps after the request when the leader has nothing left. */
  lemma EmptyTurn(c: Cluster, n: NodeId, t: string, s: nat, r: Read)
    requires Waits(c, n, t, s) && Drained(c, t, r.segment)
    requires c.nodes[n].reading == Some(r) && r.reply.None? && r.topic == t && r.leader in c.nodes && !HandsOut(c, n, r)
    requires t in c.nodes[n].cursors && 1 <= c.nodes[n].cursors[t].segment == r.segment <= s <= r.current
    ensures var d := Exec(Serve(c, n), At(n, FinishRead));
            && StoresStand(c, d, n) && n in d.nodes && Idle(d.nodes[n], t, s)
            && StartCursor(d.nodes[n].cursors, t).segment == r.segment + 1
  {
    var c2 := Serve(c, n);
    FinishEmpty(c2, n, r.(reply := Some(Empty)));
    StandsOn(c, c2, Exec(c2, At(n, FinishRead)), n);
  }

  /** The node has sent the read `r` for its cursor's segment, which is at or before `s`. */
  ghost predicate Sent(c: Cluster, c1: Cluster, n: NodeId, t: string, s: nat, r: Read) {
    && StoresStand(c, c1, n) && n in c.nodes && n in c1.nodes
    && c1.nodes[n].reading == Some(r) && r.reply.None? && r.topic == t && r.leader in c1.nodes
    && t in c1.nodes[n].cursors && c1.nodes[n].cursors[t] == StartCursor(c.nodes[n].cursors, t)
    && 1 <= c1.nodes[n].cursors[t].segment == r.segment <= s <= r.current
  }

  lemma Send(c: Cluster, n: NodeId, t: string, s: nat) returns (r: Read)
    requires ReadSafe(c) && Waits(c, n, t, s) && Idle(c.nodes[n], t, s) && t in Replay(Prefix(c.log, c.nodes[n])).topics
    requires !CountedOut(Replay(Prefix(c.log, c.nodes[n])), t, StartCursor(c.nodes[n].cursors, t))
    ensures Sent(c, Exec(c, At(n, BeginRead(t))), n, t, s, r)
  {
    CursorInView(c, n, t, s);
    BeginAsks(c, n, t);
    r := Asked(c, n, t);
  }

  /** Where the request goes, the leader has an entry or everything was handed out. */
  lemma SentOrDrained(c1: Cluster, n: NodeId, r: Read)
    requires ReadSafe(c1) && n in c1.nodes && c1.nodes[n].reading == Some(r) && r.reply.None? && r.leader in c1.nodes
    ensures HandsOut(c1, n, r) || Drained(c1, r.topic, r.segment)
  {
  }

  lemma AnsweredEmpty(c: Cluster, c1: Cluster, n: NodeId, t: string, s: nat, r: Read)
    requires Waits(c, n, t, s) && Sent(c, c1, n, t, s, r) && !HandsOut(c1, n, r) && Drained(c1, t, r.segment)
    ensures Turned(c, Run(c1, [ServeRead(n)] + [At(n, FinishRead)]), n, t, s)
  {
    EmptyTurn(c1, n, t, s, r);
    StandsOn(c, c1, Exec(Serve(c1, n), At(n, FinishRead)), n);
    RunTwo(c1, ServeRead(n), At(n, FinishRead));
  }

  /** The request is answered: an entry, or nothing and the cursor moves on. */
  lemma Answer(c: Cluster, c1: Cluster, n: NodeId, t: string, s: nat, r: Read) returns (acts: seq<Action>)
    requires Waits(c, n, t, s) && Sent(c, c1, n, t, s, r) && (HandsOut(c1, n, r) || Drained(c1, t, r.segment))
    ensures forall a :: a in acts ==> ReadAction(n, t, a)
    ensures Turned(c, Run(c1, acts), n, t, s)
  {
    if HandsOut(c1, n, r) {
      acts := [ServeRead(n)];
    } else {
      AnsweredEmpty(c, c1, n, t, s, r);
      acts := [ServeRead(n)] + [At(n, FinishRead)];
    }
  }

  /** One turn of the read loop: an entry, or the cursor one segment further. */
  lemma Turn(c: Cluster, n: NodeId, t: string, s: nat) returns (acts: seq<Action>)
    requires ReadSafe(c) && CountsCover(c) && Waits(c, n, t, s) && Idle(c.nodes[n], t, s)
    ensures forall a :: a in acts ==> ReadAction(n, t, a)
    ensures Turned(c, Run(c, acts), n, t, s)
  {
    CursorInView(c, n, t, s);
    RunOne(c, At(n, BeginRead(t)));
    if CountedOut(Replay(Prefix(c.log, c.nodes[n])), t, StartCursor(c.nodes[n].cursors, t)) {
      assert NodeReads(c, c.nodes[n]);
      LeaveByCount(c, c.nodes[n], t);
      CountedTurn(c, n, t, s);
      acts := [At(n, BeginRead(t))];
    } else {
      var r := Send(c, n, t, s);
      ReadActionGood(c, n, t, At(n, BeginRead(t)));
      var c1 := Exec(c, At(n, BeginRead(t)));
      SentOrDrained(c1, n, r);
      var rest := Answer(c, c1, n, t, s, r);
      RunConcat(c, [At(n, BeginRead(t))], rest);
      acts := [At(n, BeginRead(t))] + rest;
    }
  }

  lemma {:induction false} ReadActionsGood(c: Cluster, n: NodeId, t: string, acts: seq<Action>)
    requires ReadSafe(c) && CountsCover(c) && forall a :: a in acts ==> ReadAction(n, t, a)
    ensures ReadSafe(Run(c, acts)) && CountsCover(Run(c, acts))
  {
    if acts != [] {
      ReadActionsGood(c, n, t, Front(acts));
      ReadActionGood(Run(c, Front(acts)), n, t, Last(acts));
    }
  }

  /** Read progress: some continuation of the run by reading steps of the node alone hands it an entry of the
      topic, of no segment behind the waiting one. */
  lemma {:induction false} ReadProgress(c: Cluster, n: NodeId, t: string, s: nat) returns (acts: seq<Action>)
    requires ReadSafe(c) && CountsCover(c) && Waits(c, n, t, s) && Idle(c.nodes[n], t, s)
    ensures forall a :: a in acts ==> ReadAction(n, t, a)
    ensures GotOne(c, Run(c, acts), n, t, s)
    decreases s - StartCursor(c.nodes[n].cursors, t).segment
  {
    acts := Turn(c, n, t, s);
    var d := Run(c, acts);
    if !GotOne(c, d, n, t, s) {
      ReadActionsGood(c, n, t, acts);
      var more := ReadProgress(d, n, t, s);
      RunConcat(c, acts, more);
      acts := acts + more;
    }
  }

  /** After every run that ends with covering counts: an entry that waits for a node can be read by it. */
  lemma AvailableIsRead(ids: set<NodeId>, acts: seq<Action>, n: NodeId, t: string, s: nat) returns (more: seq<Action>)
    requires var c := Run(Init(ids), acts); CountsCover(c) && Waits(c, n, t, s) && Idle(c.nodes[n], t, s)
    ensures forall a :: a in more ==> ReadAction(n, t, a)
    ensures GotOne(Run(Init(ids), acts), Run(Init(ids), acts + more), n, t, s)
  {
    RunReads(ids, acts);
    more := ReadProgress(Run(Init(ids), acts), n, t, s);
    RunConcat(Init(ids), acts, more);
  }
}
