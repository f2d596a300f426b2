/**
 One turn of a reader, step by step, against what the log says of the topic: when a segment is left unread,
 whom the reader asks otherwise, what it is told, and where its cursor stands then
 (distributed-walrus/src/controller/mod.rs, `read_one_for_topic`).
 */
module ReaderSteps {
  import opened Basics
  import opened Metadata
  import opened WalKeys
  import opened DataPlane

  /** The segment at the cursor is sealed and its recorded count has been read, by the log `p`. */
  predicate ReadOut(p: seq<Cmd>, topic: string, cursor: Cursor) {
    && 1 <= cursor.segment <= |Counts(p, topic)|
    && cursor.delivered >= Counts(p, topic)[cursor.segment - 1]
  }

  /** A reader whose cursor is in range goes to the start of the next segment when the count of a sealed one has
      been read, and asks the segment's leader otherwise; both as its own prefix of the log has them. A first read
      starts at segment 1 with nothing delivered. */
  lemma AsksOrLeaves(p: seq<Cmd>, node: Node, topic: string)
    requires node.reading.None? && 1 <= StartCursor(node.cursors, topic).segment <= |Leaders(p, topic)|
    ensures topic !in node.cursors ==> StartCursor(node.cursors, topic) == Cursor(1, 0)
    ensures topic in node.cursors && node.cursors[topic].segment > 0 ==> StartCursor(node.cursors, topic) == node.cursors[topic]
    ensures var cursor, after := StartCursor(node.cursors, topic), BeginReadStep(Replay(p), node, topic);
            if ReadOut(p, topic, cursor)
            then after == node.(cursors := node.cursors[topic := Cursor(cursor.segment + 1, 0)])
            else after == node.(cursors := node.cursors[topic := cursor],
                                reading := Some(Read(topic, cursor.segment, |Leaders(p, topic)|,
                                                     Leaders(p, topic)[cursor.segment - 1], None)))
  {
    var cursor := StartCursor(node.cursors, topic);
    ReplayDescribed(p, topic);
    LookupsInRange(p, p, topic, cursor.segment);
  }

  /** A request to a leader that can be reached is answered with the leader's first entry not handed out yet,
      which is then handed out; or with "empty" if there is none. */
  lemma AnsweredFromTheFront(c: Cluster, reader: NodeId)
    requires reader in c.nodes && c.nodes[reader].reading.Some?
    requires c.nodes[reader].reading.value.reply.None? && c.nodes[reader].reading.value.leader in c.nodes
    ensures var r, d := c.nodes[reader].reading.value, Serve(c, reader);
            var key, l := WalKey(r.topic, r.segment), c.nodes[r.leader];
            && reader in d.nodes && r.leader in d.nodes && d.nodes[reader].reading.Some?
            && (Taken(l, key) < |Fifo(l, key)| ==>
                  && d.nodes[reader].reading.value == r.(reply := Some(Entry(Fifo(l, key)[Taken(l, key)])))
                  && Taken(d.nodes[r.leader], key) == Taken(l, key) + 1
                  && d.delivered == c.delivered + [Delivery(reader, key, Taken(l, key), Fifo(l, key)[Taken(l, key)])])
            && (Taken(l, key) >= |Fifo(l, key)| ==>
                  && d.nodes[reader].reading.value == r.(reply := Some(Empty))
                  && d.nodes[r.leader].consumed == l.consumed && d.delivered == c.delivered)
  {
  }

  /** An entry moves the cursor one further in its segment, "empty" moves it to the next segment when the segment
      was seen as sealed and not at all otherwise; the read is over in each case. */
  lemma MovesOnReply(s: ClusterState, node: Node)
    requires node.reading.Some? && node.reading.value.reply.Some? && node.reading.value.topic in node.cursors
    ensures var r, after := node.reading.value, FinishReadStep(s, node);
            var was := node.cursors[r.topic];
            && after.reading == None && r.topic in after.cursors
            && (r.reply.value.Entry? ==> after.cursors[r.topic] == Cursor(was.segment, was.delivered + 1))
            && (r.reply.value.Empty? && r.segment < r.current ==> after.cursors[r.topic] == Cursor(was.segment + 1, 0))
            && (r.reply.value.Empty? && r.segment >= r.current ==> after.cursors[r.topic] == was)
            && (forall t :: t != r.topic ==> (t in after.cursors <==> t in node.cursors))
            && (forall t :: t != r.topic && t in node.cursors ==> after.cursors[t] == node.cursors[t])
  {
  }
}
