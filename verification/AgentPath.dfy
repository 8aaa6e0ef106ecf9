/**
 * What an agent does, as steps of the protocol: a reconcile of a delivered target is a stretch of them that records
 * exactly its start and its touch of the flag.
 */
module AgentPath {
  import opened Entities
  import opened Protocol
  import opened Regression
  import Atomic
  import A = AgentSteps

  /** The protocol knows of the agent's flag exactly if it exists. */
  predicate Agrees(a: A.Agent, name: string, s: State) {
    a.flag <==> name in s.flags
  }

  /** The events of a reconcile that takes the agent from `a` to `a'`: its start, if any, and the touch after it. */
  function Recorded(name: string, t: Target, a: A.Agent, a': A.Agent, env: A.Env): seq<Event> {
    if a'.starts == a.starts then []
    else
      var started := if Bootstraps(t) then Bootstrapped(name) else Joined(name, t.addresses);
      if env.touchOk then [started, Flagged(name)] else [started]
  }

  /** A delivered target that leads to no start is simply done with. */
  lemma Ignored(c: Config, s: State, name: string, t: Target) returns (s': State)
    requires Delivered(name, t) in s.ops
    ensures Reaches(c, s, s') && s' == s.(ops := s.ops - multiset{Delivered(name, t)})
  {
    s' := Done(s, Delivered(name, t));
    ReachesStep(c, s, Lose(Delivered(name, t)), s');
  }

  lemma Handled(c: Config, s: State, name: string, t: Target) returns (s': State)
    requires Delivered(name, t) in s.ops && (Bootstraps(t) || Joins(t))
    ensures Reaches(c, s, s') && s' == With(Done(s, Delivered(name, t)), Launching(name, Bootstraps(t), t.addresses))
  {
    s' := With(Done(s, Delivered(name, t)), Launching(name, Bootstraps(t), t.addresses));
    ReachesStep(c, s, HandleTarget(name, t), s');
  }

  lemma Ran(c: Config, s: State, name: string, newCluster: bool, addresses: seq<string>, touch: bool) returns (s': State)
    ensures Reaches(c, With(s, Launching(name, newCluster, addresses)), s')
    ensures var noted := Note(s, if newCluster then Bootstrapped(name) else Joined(name, addresses));
            s' == if touch then Note(noted, Flagged(name)).(flags := s.flags + {name}) else noted
  {
    var launching := With(s, Launching(name, newCluster, addresses));
    var noted := Note(s, if newCluster then Bootstrapped(name) else Joined(name, addresses));
    s' := if touch then Note(noted, Flagged(name)).(flags := s.flags + {name}) else noted;
    Atomic.InAndOut(s.ops, Launching(name, newCluster, addresses));
    ReachesStep(c, launching, Start(name, newCluster, addresses), With(noted, Touching(name)));
    Atomic.InAndOut(s.ops, Touching(name));
    ReachesStep(c, With(noted, Touching(name)), if touch then Touch(name) else Lose(Touching(name)), s');
    ReachesTrans(c, launching, With(noted, Touching(name)), s');
  }

  /** A delivered target is acted on, the database is started, and the flag is touched or not. */
  lemma Started(c: Config, s: State, name: string, t: Target, touch: bool) returns (s': State)
    requires Delivered(name, t) in s.ops && (Bootstraps(t) || Joins(t))
    ensures Reaches(c, s, s') && s'.store == s.store && s'.ops == s.ops - multiset{Delivered(name, t)}
    ensures s'.flags == if touch then s.flags + {name} else s.flags
    ensures var started := if Bootstraps(t) then Bootstrapped(name) else Joined(name, t.addresses);
            s'.log == s.log + if touch then [started, Flagged(name)] else [started]
  {
    var launching := Handled(c, s, name, t);
    s' := Ran(c, Done(s, Delivered(name, t)), name, Bootstraps(t), t.addresses, touch);
    ReachesTrans(c, s, launching, s');
  }

  /**
   * Every reconcile of a delivered target is a path of the protocol that uses it up, leaves the store and all other
   * operations alone, records a start exactly if one succeeds and the flag exactly if it is touched, and afterwards the
   * protocol and the agent agree on the flag again.
   */
  lemma ReconcileIsPath(c: Config, s: State, name: string, t: Target, a: A.Agent, env: A.Env, hash: A.Hash) returns (s': State)
    requires Delivered(name, t) in s.ops && Agrees(a, name, s)
    ensures var a' := A.Reconcile(a, Some(t), env, hash).0;
            && Reaches(c, s, s') && s'.store == s.store && s'.ops == s.ops - multiset{Delivered(name, t)}
            && s'.log == s.log + Recorded(name, t, a, a', env) && Agrees(a', name, s')
  {
    var a' := A.Reconcile(a, Some(t), env, hash).0;
    A.StartsAsTold(a, Some(t), env, hash);
    if a'.starts == a.starts {
      s' := Ignored(c, s, name, t);
    } else {
      s' := Started(c, s, name, t, env.touchOk);
    }
  }

  // ---- The life of an agent ----

  /** The targets that these events take from the network. */
  function Deliveries(name: string, events: seq<A.Event>): multiset<Op> {
    if events == [] then multiset{}
    else (if events[0].Reconciled? && events[0].target.Some? then multiset{Delivered(name, events[0].target.value)} else multiset{})
         + Deliveries(name, events[1..])
  }

  function RecordedBy(name: string, a: A.Agent, e: A.Event, hash: A.Hash): seq<Event> {
    if a.doomed || !e.Reconciled? || e.target.None? then []
    else Recorded(name, e.target.value, a, A.Happen(a, e, hash), e.env)
  }

  function RecordedByAll(name: string, a: A.Agent, events: seq<A.Event>, hash: A.Hash): seq<Event>
    decreases |events|
  {
    if events == [] then []
    else RecordedBy(name, a, events[0], hash) + RecordedByAll(name, A.Happen(a, events[0], hash), events[1..], hash)
  }

  /** A path that leaves the store alone, uses up these operations, and records these events. */
  ghost predicate Does(c: Config, s: State, s': State, used: multiset<Op>, recorded: seq<Event>) {
    Reaches(c, s, s') && s'.store == s.store && used <= s.ops && s'.ops == s.ops - used && s'.log == s.log + recorded
  }

  lemma DoesBoth(c: Config, s: State, m: State, s': State, used: multiset<Op>, used': multiset<Op>, log: seq<Event>, log': seq<Event>)
    requires Does(c, s, m, used, log) && Does(c, m, s', used', log')
    ensures Does(c, s, s', used + used', log + log')
  {
    ReachesTrans(c, s, m, s');
    assert s.log + log + log' == s.log + (log + log');
  }

  lemma DoesNothing(c: Config, s: State)
    ensures Does(c, s, s, multiset{}, [])
  {
    ReachesItself(c, s);
  }

  lemma FirstDelivery(name: string, events: seq<A.Event>)
    requires events != []
    ensures Deliveries(name, events) == Deliveries(name, [events[0]]) + Deliveries(name, events[1..])
  {
    assert Deliveries(name, [events[0]][1..]) == multiset{};
  }

  predicate TakesTarget(e: A.Event) {
    e.Reconciled? && e.target.Some?
  }

  lemma OthersKeepFlag(a: A.Agent, e: A.Event, hash: A.Hash)
    requires !TakesTarget(e) || a.doomed
    ensures A.Happen(a, e, hash).flag == a.flag
  {
  }

  lemma DeliveryOf(name: string, e: A.Event)
    ensures Deliveries(name, [e]) == if TakesTarget(e) then multiset{Delivered(name, e.target.value)} else multiset{}
  {
    assert Deliveries(name, [e][1..]) == multiset{};
  }

  lemma EventIsPath(c: Config, s: State, name: string, a: A.Agent, e: A.Event, hash: A.Hash) returns (s': State)
    requires Deliveries(name, [e]) <= s.ops && Agrees(a, name, s)
    ensures Does(c, s, s', Deliveries(name, [e]), RecordedBy(name, a, e, hash)) && Agrees(A.Happen(a, e, hash), name, s')
  {
    DeliveryOf(name, e);
    if !TakesTarget(e) {
      OthersKeepFlag(a, e, hash);
      s' := s;
      DoesNothing(c, s);
    } else {
      assert Delivered(name, e.target.value) in Deliveries(name, [e]);
      if a.doomed {
        OthersKeepFlag(a, e, hash);
        s' := Ignored(c, s, name, e.target.value);
      } else {
        s' := ReconcileIsPath(c, s, name, e.target.value, a, e.env, hash);
      }
    }
  }

  /** The whole life of an agent, whatever happens to it, is a path of the protocol. */
  lemma {:induction false} LifeIsPath(c: Config, s: State, name: string, a: A.Agent, events: seq<A.Event>, hash: A.Hash) returns (s': State)
    requires Deliveries(name, events) <= s.ops && Agrees(a, name, s)
    ensures Does(c, s, s', Deliveries(name, events), RecordedByAll(name, a, events, hash))
    ensures Agrees(A.HappenAll(a, events, hash), name, s')
    decreases |events|
  {
    if events == [] {
      s' := s;
      DoesNothing(c, s);
    } else {
      var first, rest := Deliveries(name, [events[0]]), Deliveries(name, events[1..]);
      FirstDelivery(name, events);
      var m := EventIsPath(c, s, name, a, events[0], hash);
      var b := A.Happen(a, events[0], hash);
      s' := LifeIsPath(c, m, name, b, events[1..], hash);
      DoesBoth(c, s, m, s', first, rest, RecordedBy(name, a, events[0], hash), RecordedByAll(name, b, events[1..], hash));
    }
  }
}
