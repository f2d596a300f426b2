/**
 The write-behind persistence of clean markers (src/wal/runtime/topic_clean.rs): updaters that load,
 increment, store and send in separate atomic steps, one persister thread that drains the channel,
 loads the two halves of each marker separately and writes them out, and crashes at any point.

 Every action is a total function of the state; an action that is not possible leaves the state alone.
 */
module TopicClean {
  import opened Basics

  datatype Marker = Marker(generation: nat, clean: bool)

  const DEFAULT := Marker(0, true)

  /** How far an update has got. `Loaded`: it saw a flag other than the one it wants. */
  datatype Phase = Loaded | Incremented | Stored

  datatype Update = Update(topic: string, desired: bool, phase: Phase)

  datatype Persister =
    | Gathering
    | Snapshotting(todo: set<string>, loaded: Option<(string, nat)>, updates: seq<(string, Marker)>)

  datatype State = State(
    live: map<string, Marker>,        // the atomics of each topic
    store: map<string, Marker>,       // the markers on disk
    queue: seq<string>,               // the channel to the persister
    pending: set<string>,
    persister: Persister,
    updaters: map<nat, Update>)       // updates in flight, by thread

  datatype Action =
    | Load(id: nat, topic: string, desired: bool)
    | Increment(id: nat)
    | StoreFlag(id: nat)
    | Send(id: nat)
    | Receive
    | Begin
    | LoadGeneration(topic: string)
    | LoadClean
    | Write
    | Crash

  function Live(s: State, t: string): Marker { Get(s.live, t, DEFAULT) }

  function OnDisk(s: State, t: string): Marker { Get(s.store, t, DEFAULT) }

  function WithDefault(live: map<string, Marker>, t: string): map<string, Marker> {
    if t in live then live else live[t := DEFAULT]
  }

  function StepLoad(s: State, id: nat, t: string, desired: bool): State {
    if id in s.updaters then s
    else
      var r := s.(live := WithDefault(s.live, t));
      if Live(s, t).clean == desired then r
      else r.(updaters := s.updaters[id := Update(t, desired, Loaded)])
  }

  function StepIncrement(s: State, id: nat): State {
    if id in s.updaters && s.updaters[id].phase.Loaded? then
      var u := s.updaters[id];
      s.(live := s.live[u.topic := Live(s, u.topic).(generation := Live(s, u.topic).generation + 1)],
         updaters := s.updaters[id := u.(phase := Incremented)])
    else s
  }

  function StepStoreFlag(s: State, id: nat): State {
    if id in s.updaters && s.updaters[id].phase.Incremented? then
      var u := s.updaters[id];
      s.(live := s.live[u.topic := Live(s, u.topic).(clean := u.desired)],
         updaters := s.updaters[id := u.(phase := Stored)])
    else s
  }

  function StepSend(s: State, id: nat): State {
    if id in s.updaters && s.updaters[id].phase.Stored?
    then s.(queue := s.queue + [s.updaters[id].topic], updaters := s.updaters - {id}) else s
  }

  function StepReceive(s: State): State {
    if s.persister.Gathering? && s.queue != []
    then s.(queue := s.queue[1..], pending := s.pending + {s.queue[0]}) else s
  }

  function StepBegin(s: State): State {
    if s.persister.Gathering? && s.pending != {} then s.(persister := Snapshotting(s.pending, None, [])) else s
  }

  function StepLoadGeneration(s: State, t: string): State {
    match s.persister
    case Gathering => s
    case Snapshotting(todo, loaded, updates) =>
      if loaded.Some? || t !in todo then s
      else if t in s.live
      then s.(persister := Snapshotting(todo - {t}, Some((t, s.live[t].generation)), updates))
      else s.(persister := Snapshotting(todo - {t}, None, updates))
  }

  function StepLoadClean(s: State): State {
    match s.persister
    case Gathering => s
    case Snapshotting(todo, loaded, updates) =>
      match loaded
      case None => s
      case Some(l) => s.(persister := Snapshotting(todo, None, updates + [(l.0, Marker(l.1, Live(s, l.0).clean))]))
  }

  function Insert(store: map<string, Marker>, updates: seq<(string, Marker)>): map<string, Marker> {
    if updates == [] then store else Insert(store, Front(updates))[Last(updates).0 := Last(updates).1]
  }

  function StepWrite(s: State): State {
    if s.persister.Snapshotting? && s.persister.todo == {} && s.persister.loaded.None?
    then s.(store := Insert(s.store, s.persister.updates), pending := {}, persister := Gathering) else s
  }

  /** A crash loses everything but the disk; the next start hydrates from it. */
  function StepCrash(s: State): State {
    Start(s.store)
  }

  function Start(store: map<string, Marker>): State {
    State(store, store, [], {}, Gathering, map[])
  }

  function Exec(s: State, a: Action): State {
    match a
    case Load(id, t, desired) => StepLoad(s, id, t, desired)
    case Increment(id) => StepIncrement(s, id)
    case StoreFlag(id) => StepStoreFlag(s, id)
    case Send(id) => StepSend(s, id)
    case Receive => StepReceive(s)
    case Begin => StepBegin(s)
    case LoadGeneration(t) => StepLoadGeneration(s, t)
    case LoadClean => StepLoadClean(s)
    case Write => StepWrite(s)
    case Crash => StepCrash(s)
  }

  function Run(s: State, actions: seq<Action>): State {
    if actions == [] then s else Exec(Run(s, Front(actions)), Last(actions))
  }

  // ----- The invariant -----

  /** Thread `id` is between its increment of topic `t` and its send. */
  predicate Mid(s: State, id: nat, t: string) {
    id in s.updaters && s.updaters[id].topic == t && !s.updaters[id].phase.Loaded?
  }

  /** A change of the topic is still to reach the persister. */
  ghost predicate Moving(s: State, t: string) {
    t in s.queue || exists id :: Mid(s, id, t)
  }

  /** What the persister has read of a topic so far. */
  ghost predicate Snapped(s: State, t: string, g: nat) {
    s.persister.Snapshotting? && (s.persister.loaded == Some((t, g)) || exists c :: (t, Marker(g, c)) in s.persister.updates)
  }

  predicate Taken(s: State, t: string, m: Marker) {
    s.persister.Snapshotting? && (t, m) in s.persister.updates
  }

  ghost predicate GenerationsOk(s: State, t: string) {
    && OnDisk(s, t).generation <= Live(s, t).generation
    && forall g: nat :: Snapped(s, t, g) ==> OnDisk(s, t).generation <= g <= Live(s, t).generation
  }

  ghost predicate ValuesOk(s: State, t: string) {
    Moving(s, t) || (
      && (t !in s.pending ==> OnDisk(s, t) == Live(s, t))
      && (forall g: nat :: Snapped(s, t, g) ==> g == Live(s, t).generation)
      && (forall m :: Taken(s, t, m) ==> m == Live(s, t)))
  }

  ghost predicate Shape(s: State) {
    && (forall t :: t in s.pending || t in s.queue ==> t in s.live)
    && (forall id :: id in s.updaters ==> s.updaters[id].topic in s.live)
    && (s.persister.Snapshotting? ==>
          && s.persister.todo <= s.pending
          && (forall t :: t in s.pending ==> t in s.persister.todo || exists g: nat :: Snapped(s, t, g))
          && (forall t, g: nat :: Snapped(s, t, g) ==> t in s.pending))
  }

  ghost predicate Inv(s: State) {
    Shape(s) && forall t :: GenerationsOk(s, t) && ValuesOk(s, t)
  }

  // ----- Every action keeps it -----

  /** What matters of a topic is untouched by an action on other topics. */
  lemma OtherTopic(s: State, r: State, t: string)
    requires GenerationsOk(s, t) && ValuesOk(s, t)
    requires Live(r, t) == Live(s, t) && OnDisk(r, t) == OnDisk(s, t) && r.pending == s.pending && r.persister == s.persister
    requires t in s.queue ==> t in r.queue
    requires forall id :: Mid(s, id, t) ==> Mid(r, id, t)
    ensures GenerationsOk(r, t) && ValuesOk(r, t)
  {
    if exists id :: Mid(s, id, t) {
      var id :| Mid(s, id, t);
      assert Mid(r, id, t);
    }
    assert Moving(s, t) ==> Moving(r, t);
    assert forall g: nat :: Snapped(r, t, g) <==> Snapped(s, t, g);
    assert forall m :: Taken(r, t, m) <==> Taken(s, t, m);
  }

  lemma NothingChanged(s: State, r: State)
    requires Inv(s)
    requires r.store == s.store && r.pending == s.pending && r.persister == s.persister && r.queue == s.queue
    requires s.live.Keys <= r.live.Keys && forall u :: Live(r, u) == Live(s, u)
    requires forall id :: id in r.updaters ==> r.updaters[id].topic in r.live
    requires forall k, u :: Mid(s, k, u) ==> Mid(r, k, u)
    ensures Inv(r)
  {
    forall u ensures GenerationsOk(r, u) && ValuesOk(r, u) {
      assert GenerationsOk(s, u) && ValuesOk(s, u);
      OtherTopic(s, r, u);
    }
    assert forall u, g: nat :: Snapped(r, u, g) <==> Snapped(s, u, g);
  }

  lemma LoadKeeps(s: State, id: nat, t: string, desired: bool)
    requires Inv(s)
    ensures Inv(StepLoad(s, id, t, desired))
  {
    var r := StepLoad(s, id, t, desired);
    forall u ensures Live(r, u) == Live(s, u) { }
    forall k, u | Mid(s, k, u) ensures Mid(r, k, u) { }
    NothingChanged(s, r);
  }

  /** An increment or a store of the flag: the thread is between increment and send afterwards. */
  lemma ChangeKeeps(s: State, r: State, id: nat, t: string)
    requires Inv(s)
    requires r.queue == s.queue && r.pending == s.pending && r.persister == s.persister && r.store == s.store
    requires Mid(r, id, t) && r.live.Keys == s.live.Keys && t in s.live
    requires r.updaters.Keys == s.updaters.Keys && forall k :: k in s.updaters && k != id ==> r.updaters[k] == s.updaters[k]
    requires id in s.updaters && s.updaters[id].topic == t
    requires forall u :: u != t ==> Live(r, u) == Live(s, u)
    requires Live(s, t).generation <= Live(r, t).generation
    ensures Inv(r)
  {
    assert forall u, g: nat :: Snapped(r, u, g) <==> Snapped(s, u, g);
    forall u ensures GenerationsOk(r, u) && ValuesOk(r, u) {
      assert GenerationsOk(s, u) && ValuesOk(s, u);
      if u == t {
        assert Moving(r, t);
      } else {
        OtherTopic(s, r, u);
      }
    }
  }

  lemma SendKeeps(s: State, id: nat)
    requires Inv(s)
    ensures Inv(StepSend(s, id))
  {
    var r := StepSend(s, id);
    assert forall u, g: nat :: Snapped(r, u, g) <==> Snapped(s, u, g);
    forall u ensures GenerationsOk(r, u) && ValuesOk(r, u) {
      assert GenerationsOk(s, u) && ValuesOk(s, u);
      if r != s && u == s.updaters[id].topic {
        assert Last(r.queue) == u;
        assert Moving(r, u);
        assert forall g: nat :: Snapped(r, u, g) <==> Snapped(s, u, g);
      } else {
        OtherTopic(s, r, u);
      }
    }
  }

  lemma ReceiveKeeps(s: State)
    requires Inv(s)
    ensures Inv(StepReceive(s))
  {
    var r := StepReceive(s);
    if r != s {
      forall u ensures GenerationsOk(r, u) && ValuesOk(r, u) {
        assert GenerationsOk(s, u) && ValuesOk(s, u);
        assert u in s.queue ==> u == s.queue[0] || u in s.queue[1..];
        if exists id :: Mid(s, id, u) {
          var id :| Mid(s, id, u);
          assert Mid(r, id, u);
        }
      }
    }
  }

  lemma BeginKeeps(s: State)
    requires Inv(s)
    ensures Inv(StepBegin(s))
  {
    var r := StepBegin(s);
    if r != s {
      forall u ensures GenerationsOk(r, u) && ValuesOk(r, u) {
        assert GenerationsOk(s, u) && ValuesOk(s, u);
        assert Moving(s, u) <==> Moving(r, u) by { assert forall id :: Mid(s, id, u) <==> Mid(r, id, u); }
      }
    }
  }

  /** The persister reads more of topic `t`: a generation, or the flag that completes a marker. */
  lemma SnapKeeps(s: State, r: State, t: string, g: nat)
    requires Inv(s) && s.persister.Snapshotting? && r.persister.Snapshotting?
    requires r == s.(persister := r.persister) && t in s.pending
    requires r.persister.todo <= s.persister.todo && s.persister.todo <= r.persister.todo + {t}
    requires Snapped(r, t, g) && OnDisk(s, t).generation <= g <= Live(s, t).generation
    requires !Moving(s, t) ==> g == Live(s, t).generation
    requires forall u, h: nat :: Snapped(r, u, h) ==> Snapped(s, u, h) || (u == t && h == g)
    requires forall u, h: nat :: Snapped(s, u, h) ==> Snapped(r, u, h)
    requires forall u, m :: Taken(r, u, m) ==> Taken(s, u, m) || (u == t && m == Marker(g, Live(s, t).clean))
    ensures Inv(r)
  {
    forall u ensures GenerationsOk(r, u) && ValuesOk(r, u) {
      assert GenerationsOk(s, u) && ValuesOk(s, u);
      assert Moving(s, u) <==> Moving(r, u) by { assert forall id :: Mid(s, id, u) <==> Mid(r, id, u); }
    }
    forall u | u in r.pending && u !in r.persister.todo ensures exists h: nat :: Snapped(r, u, h) {
      if u != t {
        var h: nat :| Snapped(s, u, h);
        assert Snapped(r, u, h);
      }
    }
  }

  lemma LoadGenerationKeeps(s: State, t: string)
    requires Inv(s)
    ensures Inv(StepLoadGeneration(s, t))
  {
    var r := StepLoadGeneration(s, t);
    if r != s {
      assert t in s.pending && t in s.live;
      assert GenerationsOk(s, t);
      SnapKeeps(s, r, t, s.live[t].generation);
    }
  }

  lemma LoadCleanKeeps(s: State)
    requires Inv(s)
    ensures Inv(StepLoadClean(s))
  {
    var r := StepLoadClean(s);
    if s.persister.Snapshotting? && s.persister.loaded.Some? {
      var (t, g) := s.persister.loaded.value;
      assert Snapped(s, t, g);
      assert GenerationsOk(s, t) && ValuesOk(s, t);
      var before, after := s.persister.updates, r.persister.updates;
      assert after == before + [(t, Marker(g, Live(s, t).clean))];
      assert forall e :: e in after <==> e in before || e == (t, Marker(g, Live(s, t).clean));
      SnapKeeps(s, r, t, g);
    }
  }

  /** The disk holds, for each topic, one of the written markers, or what it held. */
  lemma {:induction false} InsertAt(store: map<string, Marker>, updates: seq<(string, Marker)>, t: string)
    ensures (t in Insert(store, updates) && (t, Insert(store, updates)[t]) in updates)
            || (Get(Insert(store, updates), t, DEFAULT) == Get(store, t, DEFAULT) && forall m :: (t, m) !in updates)
  {
    if updates != [] {
      InsertAt(store, Front(updates), t);
      assert updates == Front(updates) + [Last(updates)];
    }
  }

  lemma WriteKeeps(s: State, t: string)
    requires Inv(s)
    ensures GenerationsOk(StepWrite(s), t) && ValuesOk(StepWrite(s), t)
    ensures OnDisk(s, t).generation <= OnDisk(StepWrite(s), t).generation
  {
    var r := StepWrite(s);
    assert GenerationsOk(s, t) && ValuesOk(s, t);
    if r != s {
      InsertAt(s.store, s.persister.updates, t);
      var m := OnDisk(r, t);
      if (t, m) in s.persister.updates {
        assert Taken(s, t, m) && Snapped(s, t, m.generation);
      } else {
        assert forall n :: (t, n) !in s.persister.updates;
        assert t !in s.pending by { assert forall g: nat :: !Snapped(s, t, g); }
      }
      assert Moving(s, t) <==> Moving(r, t) by { assert forall id :: Mid(s, id, t) <==> Mid(r, id, t); }
    }
  }

  lemma StepKeeps(s: State, a: Action)
    requires Inv(s)
    ensures Inv(Exec(s, a))
  {
    match a {
      case Load(id, t, desired) => LoadKeeps(s, id, t, desired);
      case Increment(id) =>
        if Exec(s, a) != s { ChangeKeeps(s, Exec(s, a), id, s.updaters[id].topic); }
      case StoreFlag(id) =>
        if Exec(s, a) != s { ChangeKeeps(s, Exec(s, a), id, s.updaters[id].topic); }
      case Send(id) => SendKeeps(s, id);
      case Receive => ReceiveKeeps(s);
      case Begin => BeginKeeps(s);
      case LoadGeneration(t) => LoadGenerationKeeps(s, t);
      case LoadClean => LoadCleanKeeps(s);
      case Write =>
        forall t ensures GenerationsOk(Exec(s, a), t) && ValuesOk(Exec(s, a), t) { WriteKeeps(s, t); }
      case Crash => StartOk(s.store);
    }
  }

  lemma StartOk(store: map<string, Marker>)
    ensures Inv(Start(store))
  {
  }

  lemma {:induction false} RunKeeps(store: map<string, Marker>, actions: seq<Action>)
    ensures Inv(Run(Start(store), actions))
  {
    if actions == [] {
      StartOk(store);
    } else {
      RunKeeps(store, Front(actions));
      StepKeeps(Run(Start(store), Front(actions)), Last(actions));
    }
  }

  // ----- The results -----

  /** At every point of every run the marker on disk is the live one, unless the topic is queued, pending or
      between an increment and its send. */
  lemma StoredUnlessMoving(store: map<string, Marker>, actions: seq<Action>, t: string)
    ensures var s := Run(Start(store), actions);
            || OnDisk(s, t) == Live(s, t)
            || t in s.queue || t in s.pending || (exists id :: Mid(s, id, t))
  {
    RunKeeps(store, actions);
    assert ValuesOk(Run(Start(store), actions), t);
  }

  lemma DiskGenerationStep(s: State, a: Action, t: string)
    requires Inv(s)
    ensures OnDisk(s, t).generation <= OnDisk(Exec(s, a), t).generation
  {
    if a.Write? { WriteKeeps(s, t); }
  }

  /** The generation on disk never decreases, through crashes too. */
  lemma {:induction false} DiskGenerationGrows(store: map<string, Marker>, actions: seq<Action>, k: nat, t: string)
    requires k <= |actions|
    ensures OnDisk(Run(Start(store), actions[..k]), t).generation <= OnDisk(Run(Start(store), actions), t).generation
    decreases |actions|
  {
    if k == |actions| {
      assert actions[..k] == actions;
    } else {
      assert Front(actions)[..k] == actions[..k];
      DiskGenerationGrows(store, Front(actions), k, t);
      RunKeeps(store, Front(actions));
      DiskGenerationStep(Run(Start(store), Front(actions)), Last(actions), t);
    }
  }

  predicate ByPersister(a: Action) {
    a.Receive? || a.Begin? || a.LoadGeneration? || a.LoadClean? || a.Write?
  }

  /** The work left to the persister. */
  function Work(s: State): nat {
    6 * |s.queue| +
    match s.persister
    case Gathering => 3 * |s.pending| + (if s.pending == {} then 0 else 2)
    case Snapshotting(todo, loaded, _) => 3 * |todo| + (if loaded.Some? then 2 else 0) + 1
  }

  /** Progress under any schedule: each effective action of the persister reduces the work left ... */
  lemma PersisterProgress(s: State, a: Action)
    requires ByPersister(a) && Exec(s, a) != s
    ensures Work(Exec(s, a)) < Work(s)
  {
    if a.Receive? { ReceiveProgress(s); }
  }

  lemma ReceiveProgress(s: State)
    requires StepReceive(s) != s
    ensures Work(StepReceive(s)) < Work(s)
  {
    var t := s.queue[0];
    if t in s.pending { assert s.pending + {t} == s.pending; }
  }

  lemma IdleMeansDone(s: State)
    requires forall a :: ByPersister(a) ==> Exec(s, a) == s
    ensures s.persister.Gathering? && s.queue == [] && s.pending == {}
  {
    assert Exec(s, Receive) == s && Exec(s, Begin) == s && Exec(s, LoadClean) == s && Exec(s, Write) == s;
    assert s.queue != [] && s.persister.Gathering? ==> |StepReceive(s).queue| < |s.queue|;
    if s.persister.Snapshotting? && s.persister.todo != {} {
      var u :| u in s.persister.todo;
      var r := Exec(s, LoadGeneration(u));
    }
  }

  /** ... and once the updates are over and it has nothing left to do, every marker is on disk. */
  lemma ConvergedWhenIdle(store: map<string, Marker>, actions: seq<Action>, t: string)
    requires var s := Run(Start(store), actions);
             s.updaters == map[] && forall a :: ByPersister(a) ==> Exec(s, a) == s
    ensures var s := Run(Start(store), actions);
            OnDisk(s, t) == Live(s, t) && s.queue == [] && s.pending == {}
  {
    RunKeeps(store, actions);
    var s := Run(Start(store), actions);
    assert ValuesOk(s, t);
    IdleMeansDone(s);
  }

  // ----- The tracker object, one thread at a time -----

  class TopicCleanTracker {
    var states: map<string, Marker>
    var store: map<string, Marker>
    var channel: seq<string>

    /** Between calls: what is not queued is on disk, and what is queued has a state. */
    ghost predicate Valid()
      reads this
    {
      && (forall t :: t in channel ==> t in states)
      && (forall t :: t in channel || Get(store, t, DEFAULT) == Get(states, t, DEFAULT))
    }

    /** A tracker hydrated from the markers on disk. */
    constructor (disk: map<string, Marker>)
      ensures Valid() && store == disk && states == disk && channel == []
    {
      states, store, channel := disk, disk, [];
    }

    method IsClean(topic: string) returns (clean: bool)
      ensures clean == Get(states, topic, DEFAULT).clean
    {
      if topic in states {
        clean := states[topic].clean;
      } else {
        clean := true;
      }
    }

    /** `update_state`: the flag is as desired afterwards; the generation moves, and the persister hears of
        it, exactly when the flag changed. */
    method UpdateState(topic: string, desired: bool)
      requires Valid()
      modifies this`states, this`channel
      ensures Valid()
      ensures var was, now := old(Get(states, topic, DEFAULT)), Get(states, topic, DEFAULT);
              && now.clean == desired
              && now.generation == was.generation + (if was.clean == desired then 0 else 1)
              && channel == old(channel) + (if was.clean == desired then [] else [topic])
      ensures forall t :: t != topic ==> Get(states, t, DEFAULT) == old(Get(states, t, DEFAULT))
    {
      if topic !in states {
        states := states[topic := DEFAULT];
      }
      if states[topic].clean == desired {
        return;
      }
      var next := states[topic].generation + 1;
      states := states[topic := Marker(next, states[topic].clean)];
      states := states[topic := Marker(next, desired)];
      channel := channel + [topic];
      assert forall t :: t in old(channel) ==> t in channel;
      assert Last(channel) == topic;
    }

    /** One round of the persister: everything queued is drained and written, so disk and memory agree. */
    method PersistRound()
      requires Valid()
      modifies this`store, this`channel
      ensures Valid() && channel == []
      ensures forall t :: Get(store, t, DEFAULT) == Get(states, t, DEFAULT)
      ensures forall t :: t !in old(channel) ==> Get(store, t, DEFAULT) == old(Get(store, t, DEFAULT))
    {
      var pending: set<string> := {};
      while channel != []
        invariant forall t :: t in old(channel) <==> t in pending || t in channel
        invariant store == old(store)
        decreases |channel|
      {
        ghost var queued := channel;
        pending := pending + {channel[0]};
        channel := channel[1..];
        assert forall t :: t in queued <==> t == queued[0] || t in channel;
      }
      var updates := Snapshot(pending);
      PersistUpdates(updates);
    }

    /** The markers of the pending topics, each once. */
    method Snapshot(pending: set<string>) returns (updates: seq<(string, Marker)>)
      requires forall t :: t in pending ==> t in states
      ensures forall u :: u in updates ==> u.0 in pending && u.1 == states[u.0]
      ensures forall t :: t in pending ==> (t, states[t]) in updates
    {
      updates := [];
      var todo := pending;
      while todo != {}
        invariant todo <= pending
        invariant forall u :: u in updates ==> u.0 in pending && u.1 == states[u.0]
        invariant forall t :: t in pending ==> t in todo || (t, states[t]) in updates
      {
        var t :| t in todo;
        ghost var before := updates;
        updates := updates + [(t, states[t])];
        assert forall u :: u in updates <==> u in before || u == (t, states[t]);
        todo := todo - {t};
      }
    }

    /** `persist_updates`: the records are inserted in order. */
    method PersistUpdates(updates: seq<(string, Marker)>)
      modifies this`store
      ensures store == Insert(old(store), updates)
      ensures forall t :: (t in store && (t, store[t]) in updates)
                          || (Get(store, t, DEFAULT) == old(Get(store, t, DEFAULT)) && forall m :: (t, m) !in updates)
    {
      for i := 0 to |updates|
        invariant store == Insert(old(store), updates[..i])
      {
        store := store[updates[i].0 := updates[i].1];
        assert Front(updates[..i + 1]) == updates[..i];
      }
      assert updates[..|updates|] == updates;
      forall t
        ensures (t in store && (t, store[t]) in updates)
                || (Get(store, t, DEFAULT) == old(Get(store, t, DEFAULT)) && forall m :: (t, m) !in updates)
      {
        InsertAt(old(store), updates, t);
      }
    }
  }
}
