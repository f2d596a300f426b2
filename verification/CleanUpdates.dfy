/**
 One update of a clean marker among other threads (src/wal/runtime/topic_clean.rs): its load, increment, store
 and send with anything that does not concern its topic in between.
 */
module CleanUpdates {
  import opened Basics
  import opened TopicClean

  /** No other thread is updating the topic. */
  ghost predicate AloneOn(s: State, id: nat, t: string) {
    forall k :: k in s.updaters && k != id ==> s.updaters[k].topic != t
  }

  /** An action of the persister, or of another thread about another topic. */
  predicate Elsewhere(a: Action, id: nat, t: string) {
    match a
    case Load(k, u, _) => k != id && u != t
    case Increment(k) => k != id
    case StoreFlag(k) => k != id
    case Send(k) => k != id
    case Crash => false
    case _ => true
  }

  /** What the thread and its topic look like is as before. */
  ghost predicate SameFor(s: State, r: State, id: nat, t: string) {
    && Live(r, t) == Live(s, t) && AloneOn(r, id, t)
    && (id in r.updaters <==> id in s.updaters) && (id in s.updaters ==> r.updaters[id] == s.updaters[id])
  }

  lemma ElsewhereKeeps(s: State, a: Action, id: nat, t: string)
    requires AloneOn(s, id, t) && Elsewhere(a, id, t)
    ensures SameFor(s, Exec(s, a), id, t)
  {
    if a.Increment? || a.StoreFlag? { assert a.id in s.updaters ==> s.updaters[a.id].topic != t; }
  }

  lemma {:induction false} ElsewhereRun(s: State, actions: seq<Action>, id: nat, t: string)
    requires AloneOn(s, id, t) && forall i :: 0 <= i < |actions| ==> Elsewhere(actions[i], id, t)
    ensures SameFor(s, Run(s, actions), id, t)
  {
    if actions != [] {
      ElsewhereRun(s, Front(actions), id, t);
      ElsewhereKeeps(Run(s, Front(actions)), Last(actions), id, t);
    }
  }

  /** The steps of one update, with `p`, `q` and `r` in between them. */
  function Updated(s: State, id: nat, t: string, desired: bool, p: seq<Action>, q: seq<Action>, r: seq<Action>): State {
    var loaded := Run(Exec(s, Load(id, t, desired)), p);
    var incremented := Run(Exec(loaded, Increment(id)), q);
    var stored := Run(Exec(incremented, StoreFlag(id)), r);
    Exec(stored, Send(id))
  }

  predicate AllElsewhere(actions: seq<Action>, id: nat, t: string) {
    forall i :: 0 <= i < |actions| ==> Elsewhere(actions[i], id, t)
  }

  /** Whatever the persister and the updates of other topics do in between, an update of a topic leaves the flag
      it wants; if that is a change the generation is one higher and the topic is queued last, otherwise nothing
      of it has moved. */
  lemma UpdateCompletes(s: State, id: nat, t: string, desired: bool, p: seq<Action>, q: seq<Action>, r: seq<Action>)
    requires id !in s.updaters && AloneOn(s, id, t)
    requires AllElsewhere(p, id, t) && AllElsewhere(q, id, t) && AllElsewhere(r, id, t)
    ensures var was, after := Live(s, t), Updated(s, id, t, desired, p, q, r);
            && id !in after.updaters && Live(after, t).clean == desired
            && Live(after, t).generation == was.generation + (if was.clean == desired then 0 else 1)
            && (was.clean != desired ==> after.queue != [] && Last(after.queue) == t)
  {
    var s1 := Exec(s, Load(id, t, desired));
    LoadBegins(s, id, t, desired);
    var s2 := Run(s1, p);
    ElsewhereRun(s1, p, id, t);
    var s3 := Exec(s2, Increment(id));
    IncrementGoesOn(s2, id, t);
    var s4 := Run(s3, q);
    ElsewhereRun(s3, q, id, t);
    var s5 := Exec(s4, StoreFlag(id));
    StoreGoesOn(s4, id, t);
    ElsewhereRun(s5, r, id, t);
  }

  lemma LoadBegins(s: State, id: nat, t: string, desired: bool)
    requires id !in s.updaters && AloneOn(s, id, t)
    ensures var r := StepLoad(s, id, t, desired);
            && Live(r, t) == Live(s, t) && AloneOn(r, id, t)
            && (if Live(s, t).clean == desired then id !in r.updaters
                else id in r.updaters && r.updaters[id] == Update(t, desired, Loaded))
  {
  }

  lemma IncrementGoesOn(s: State, id: nat, t: string)
    requires AloneOn(s, id, t) && (id in s.updaters ==> s.updaters[id].topic == t && s.updaters[id].phase == Loaded)
    ensures var r := StepIncrement(s, id);
            && AloneOn(r, id, t) && (id in r.updaters <==> id in s.updaters)
            && (if id in s.updaters
                then Live(r, t) == Marker(Live(s, t).generation + 1, Live(s, t).clean)
                     && r.updaters[id] == Update(t, s.updaters[id].desired, Incremented)
                else Live(r, t) == Live(s, t))
  {
  }

  lemma StoreGoesOn(s: State, id: nat, t: string)
    requires AloneOn(s, id, t) && (id in s.updaters ==> s.updaters[id].topic == t && s.updaters[id].phase == Incremented)
    ensures var r := StepStoreFlag(s, id);
            && AloneOn(r, id, t) && (id in r.updaters <==> id in s.updaters)
            && (if id in s.updaters
                then Live(r, t) == Marker(Live(s, t).generation, s.updaters[id].desired)
                     && r.updaters[id] == Update(t, s.updaters[id].desired, Stored)
                else Live(r, t) == Live(s, t))
  {
  }
}
