/** The lookup loop as the program runs it, on the lazily sorted peer set, shown to follow the
    state machine of module Lookup in every interleaving with its workers. */
module LookupQuery {
  import opened Base
  import opened KeySpace
  import opened PeerOrder
  import opened PeerSet
  import opened Lookup
  import opened LookupResult

  lemma SettleStep(m: Peers, self: PeerId, ps: seq<PeerId>, i: nat, final: PeerState)
    requires i < |ps| && Settle(m, self, ps[i..], final).Some?
    ensures ps[i] != self ==> ps[i] in m && m[ps[i]] == Waiting
    ensures Settle(m, self, ps[i..], final) ==
            Settle(if ps[i] == self then m else m[ps[i] := final], self, ps[i + 1..], final)
  {
  }

  lemma AddHeardOne(m: Peers, self: PeerId, heard: set<PeerId>, p: PeerId)
    ensures var before := AddHeard(m, self, heard);
            AddHeard(m, self, heard + {p}) ==
            if p == self || p in before then before else before[p := Heard]
  {
  }

  /** The times noted for the peers that an update reports as queried. */
  function Timed(times: map<PeerId, nat>, self: PeerId, queried: set<PeerId>, duration: nat): map<PeerId, nat> {
    times + map p | p in queried && p != self :: duration
  }

  lemma TimedOne(times: map<PeerId, nat>, self: PeerId, queried: set<PeerId>, duration: nat, p: PeerId)
    ensures var before := Timed(times, self, queried, duration);
            Timed(times, self, queried + {p}, duration) == if p == self then before else before[p := duration]
  {
  }

  /** The times of exactly the peers reported as queried are noted. */
  predicate Noted(times: map<PeerId, nat>, times': map<PeerId, nat>, self: PeerId, up: Update) {
    && times'.Keys == times.Keys + (Elements(up.queried) - {self})
    && forall p | p in times' :: times'[p] == if p in up.queried && p != self then up.queryDuration else times[p]
  }

  /** The peers heard of are there besides those known before, who keep their referrers; the new ones were
      referred by the cause. */
  predicate Refers(
      before: map<PeerId, Entry>, after: map<PeerId, Entry>, self: PeerId, heard: set<PeerId>, cause: PeerId)
  {
    && after.Keys == before.Keys + (heard - {self})
    && forall p | p in after :: after[p].referredBy == if p in before then before[p].referredBy else cause
  }

  lemma RefersOneMore(
      before: map<PeerId, Entry>, mid: map<PeerId, Entry>, after: map<PeerId, Entry>,
      self: PeerId, heard: set<PeerId>, cause: PeerId, p: PeerId)
    requires Refers(before, mid, self, heard, cause) && Refers(mid, after, self, {p}, cause)
    ensures Refers(before, after, self, heard + {p}, cause)
  {
  }

  datatype Result = Result(peers: seq<PeerId>, states: seq<PeerState>, closest: seq<PeerId>, completed: bool)

  /** The state after an iteration that found the lookup over, or else these peers to query next. */
  function Decided(s: State, ready: bool, next: set<PeerId>): State {
    if ready then s.(terminated := true, cancelled := true)
    else if s.terminated then s
    else s.(peers := Spawn(s.peers, next), running := s.running + next)
  }

  lemma DecideIsDecided(c: Config, s: State, stop: bool, ready: bool, next: set<PeerId>)
    requires |Matching(s.peers, {Waiting})| <= c.alpha && (s.terminated ==> s.cancelled)
    requires ready <==> stop || Starved(s.peers) || BetaQueried(c, s.peers)
    requires !ready ==> next == Elements(ClosestN(c.space, s.peers, c.alpha - |Matching(s.peers, {Waiting})|, {Heard}))
    ensures Decide(c, s, stop) == Decided(s, ready, next)
  {
  }

  predicate IsIteration(e: Event) {
    e.Handle? || e.Abandon?
  }

  /** The iterations of the loop, each of which asks the stop function once. */
  function Iterations(events: seq<Event>): nat {
    if events == [] then 0
    else Iterations(events[..|events| - 1]) + if IsIteration(events[|events| - 1]) then 1 else 0
  }

  /** Each iteration got the next one of the stop function's answers. */
  ghost predicate Asked(events: seq<Event>, answers: nat -> bool) {
    forall i | 0 <= i < |events| && IsIteration(events[i]) :: events[i].stop == answers(Iterations(events[..i]))
  }

  lemma AskedMore(events: seq<Event>, e: Event, answers: nat -> bool)
    requires Asked(events, answers) && (IsIteration(e) ==> e.stop == answers(Iterations(events)))
    ensures Asked(events + [e], answers)
    ensures Iterations(events + [e]) == Iterations(events) + if IsIteration(e) then 1 else 0
  {
    var more := events + [e];
    assert more[..|events|] == events;
    forall i | 0 <= i < |more| && IsIteration(more[i])
      ensures more[i].stop == answers(Iterations(more[..i]))
    {
      if i < |events| {
        assert more[..i] == events[..i];
      }
    }
  }

  class Query {
    const c: Config
    const queryPeers: QueryPeerset
    var peerTimes: map<PeerId, nat>
    var terminated: bool
    // The channel, the workers that have not reported, and whether the contexts of the lookup and of its
    // caller have ended.
    var ch: seq<Update>
    var running: set<PeerId>
    var cancelled: bool
    var ctxDone: bool
    ghost var handled: nat

    ghost predicate Valid()
      reads this, queryPeers
    {
      && c.Valid()
      && queryPeers.Valid()
      && queryPeers.space == c.space
    }

    /** The state of the state machine that the fields represent. */
    ghost function View(): State
      reads this, queryPeers
    {
      State(queryPeers.States(), running, ch, cancelled, ctxDone, terminated, handled, false)
    }

    constructor (c: Config)
      requires c.Valid()
      ensures Valid() && this.c == c && View() == Init(c)
      ensures peerTimes == map[] && fresh(queryPeers)
    {
      this.c := c;
      queryPeers := new QueryPeerset(c.space);
      peerTimes := map[];
      terminated := false;
      ch := [SeedUpdate(c)];
      running := {};
      cancelled, ctxDone := false, false;
      handled := 0;
    }

    /** Apply an update. An update that Absorb rejects makes the program panic. */
    method UpdateState(up: Update)
      requires Valid() && !terminated
      requires Elements(up.heard) <= c.space.universe
      requires Absorb(queryPeers.States(), c.self, up).Some?
      modifies this`peerTimes, queryPeers
      ensures Valid()
      ensures queryPeers.States() == Absorb(old(queryPeers.States()), c.self, up).value
      ensures Updates(old(queryPeers.States()), queryPeers.States(), c.self, up)
      ensures Refers(old(queryPeers.Contents()), queryPeers.Contents(), c.self, Elements(up.heard), up.cause)
      ensures Noted(old(peerTimes), peerTimes, c.self, up)
    {
      AbsorbUpdates(queryPeers.States(), c.self, up);
      Hear(up.heard, up.cause);
      MarkQueried(up.queried, up.queryDuration);
      Mark(up.unreachable, Unreachable);
    }

    method Hear(heard: seq<PeerId>, cause: PeerId)
      requires Valid() && Elements(heard) <= c.space.universe
      modifies queryPeers
      ensures Valid()
      ensures queryPeers.States() == AddHeard(old(queryPeers.States()), c.self, Elements(heard))
      ensures Refers(old(queryPeers.Contents()), queryPeers.Contents(), c.self, Elements(heard), cause)
    {
      ghost var m, contents := queryPeers.States(), queryPeers.Contents();
      for i := 0 to |heard|
        invariant Valid()
        invariant queryPeers.States() == AddHeard(m, c.self, Elements(heard[..i]))
        invariant Refers(contents, queryPeers.Contents(), c.self, Elements(heard[..i]), cause)
      {
        ElementsPrefix(heard, i);
        AddHeardOne(m, c.self, Elements(heard[..i]), heard[i]);
        assert heard[i] in Elements(heard);
        ghost var mid := queryPeers.Contents();
        HearOne(heard[i], cause);
        RefersOneMore(contents, mid, queryPeers.Contents(), c.self, Elements(heard[..i]), cause, heard[i]);
      }
      assert heard[..|heard|] == heard;
    }

    method HearOne(p: PeerId, cause: PeerId)
      requires Valid() && p in c.space.universe
      modifies queryPeers
      ensures Valid()
      ensures queryPeers.States() ==
              if p == c.self || p in old(queryPeers.States()) then old(queryPeers.States())
              else old(queryPeers.States())[p := Heard]
      ensures Refers(old(queryPeers.Contents()), queryPeers.Contents(), c.self, {p}, cause)
    {
      if p != c.self {
        var _ := queryPeers.TryAdd(p, cause);
      }
    }

    method MarkQueried(ps: seq<PeerId>, duration: nat)
      requires Valid() && Settle(queryPeers.States(), c.self, ps, Queried).Some?
      modifies this`peerTimes, queryPeers
      ensures Valid()
      ensures queryPeers.States() == Settle(old(queryPeers.States()), c.self, ps, Queried).value
      ensures Refers(old(queryPeers.Contents()), queryPeers.Contents(), c.self, {}, c.self)
      ensures peerTimes == Timed(old(peerTimes), c.self, Elements(ps), duration)
    {
      ghost var m, times := queryPeers.States(), peerTimes;
      assert ps[0..] == ps;
      for i := 0 to |ps|
        invariant Valid()
        invariant Settle(queryPeers.States(), c.self, ps[i..], Queried) == Settle(m, c.self, ps, Queried)
        invariant Refers(old(queryPeers.Contents()), queryPeers.Contents(), c.self, {}, c.self)
        invariant peerTimes == Timed(times, c.self, Elements(ps[..i]), duration)
      {
        SettleStep(queryPeers.States(), c.self, ps, i, Queried);
        ElementsPrefix(ps, i);
        TimedOne(times, c.self, Elements(ps[..i]), duration, ps[i]);
        MarkOne(ps[i], Queried);
        NoteTime(ps[i], duration);
      }
      assert ps[..|ps|] == ps;
    }

    method NoteTime(p: PeerId, duration: nat)
      modifies this`peerTimes
      ensures peerTimes == if p == c.self then old(peerTimes) else old(peerTimes)[p := duration]
    {
      if p != c.self {
        peerTimes := peerTimes[p := duration];
      }
    }

    method Mark(ps: seq<PeerId>, final: PeerState)
      requires Valid() && Settle(queryPeers.States(), c.self, ps, final).Some?
      modifies queryPeers
      ensures Valid()
      ensures queryPeers.States() == Settle(old(queryPeers.States()), c.self, ps, final).value
      ensures Refers(old(queryPeers.Contents()), queryPeers.Contents(), c.self, {}, c.self)
    {
      ghost var m := queryPeers.States();
      assert ps[0..] == ps;
      for i := 0 to |ps|
        invariant Valid()
        invariant Settle(queryPeers.States(), c.self, ps[i..], final) == Settle(m, c.self, ps, final)
        invariant Refers(old(queryPeers.Contents()), queryPeers.Contents(), c.self, {}, c.self)
      {
        SettleStep(queryPeers.States(), c.self, ps, i, final);
        MarkOne(ps[i], final);
      }
    }

    method MarkOne(p: PeerId, final: PeerState)
      requires Valid() && (p != c.self ==> p in queryPeers.States() && queryPeers.States()[p] == Waiting)
      modifies queryPeers
      ensures Valid()
      ensures queryPeers.States() ==
              if p == c.self then old(queryPeers.States()) else old(queryPeers.States())[p := final]
      ensures Refers(old(queryPeers.Contents()), queryPeers.Contents(), c.self, {}, c.self)
    {
      if p != c.self {
        queryPeers.SetState(p, final);
      }
    }

    method IsLookupTermination() returns (yes: bool)
      requires Valid()
      modifies queryPeers
      ensures Valid() && queryPeers.Contents() == old(queryPeers.Contents())
      ensures yes <==> BetaQueried(c, queryPeers.States())
    {
      var peers := queryPeers.GetClosestNInStates(c.beta, LIVE);
      queryPeers.KeysInUniverse();
      ClosestNShape(c.space, queryPeers.States(), c.beta, LIVE);
      for i := 0 to |peers|
        invariant forall j | 0 <= j < i :: peers[j] in queryPeers.States() && queryPeers.States()[peers[j]] == Queried
        modifies {}
      {
        assert peers[i] in Elements(peers);
        var state := queryPeers.GetState(peers[i]);
        if state != Queried {
          return false;
        }
      }
      return true;
    }

    method IsStarvationTermination() returns (yes: bool)
      requires Valid()
      modifies queryPeers
      ensures Valid() && queryPeers.Contents() == old(queryPeers.Contents())
      ensures yes <==> Starved(queryPeers.States())
    {
      var heard := queryPeers.NumHeard();
      if heard != 0 {
        return false;
      }
      var waiting := queryPeers.NumWaiting();
      return waiting == 0;
    }

    /** Whether to end the lookup and, if not, which peers to query next. */
    method IsReadyToTerminate(n: int, stop: bool) returns (ready: bool, peers: seq<PeerId>)
      requires Valid() && n >= 0
      modifies queryPeers
      ensures Valid() && queryPeers.Contents() == old(queryPeers.Contents())
      ensures ready <==> stop || Starved(queryPeers.States()) || BetaQueried(c, queryPeers.States())
      ensures !ready ==> peers == ClosestN(c.space, queryPeers.States(), n, {Heard})
    {
      if stop {
        return true, [];
      }
      ready := IsStarvationTermination();
      if ready {
        return true, [];
      }
      ready := IsLookupTermination();
      if ready {
        return true, [];
      }
      peers := queryPeers.GetClosestNInStates(n, {Heard});
    }

    method SpawnQuery(p: PeerId)
      requires Valid() && p in queryPeers.States()
      modifies this`running, queryPeers
      ensures Valid()
      ensures queryPeers.States() == old(queryPeers.States())[p := Waiting]
      ensures running == old(running) + {p}
    {
      queryPeers.SetState(p, Waiting);
      running := running + {p};
    }

    method SpawnQueries(peers: seq<PeerId>)
      requires Valid() && Elements(peers) <= queryPeers.States().Keys
      modifies this`running, queryPeers
      ensures Valid()
      ensures queryPeers.States() == Spawn(old(queryPeers.States()), Elements(peers))
      ensures running == old(running) + Elements(peers)
    {
      ghost var m, r := queryPeers.States(), running;
      assert Spawn(m, Elements(peers[..0])) == m;
      for i := 0 to |peers|
        invariant Valid()
        invariant queryPeers.States() == Spawn(m, Elements(peers[..i]))
        invariant running == r + Elements(peers[..i])
      {
        assert peers[i] in Elements(peers);
        ElementsPrefix(peers, i);
        SpawnQuery(peers[i]);
      }
      assert peers[..|peers|] == peers;
    }

    method Terminate()
      modifies this`terminated, this`cancelled
      ensures terminated
      ensures cancelled == if old(terminated) then old(cancelled) else true
    {
      if terminated {
        return;
      }
      cancelled := true;
      terminated := true;
    }

    /** The part of an iteration after the select. */
    method Conclude(stop: bool)
      requires Valid() && |Matching(queryPeers.States(), {Waiting})| <= c.alpha
      requires terminated ==> cancelled
      modifies this`terminated, this`cancelled, this`running, queryPeers
      ensures Valid()
      ensures View() == Decide(c, old(View()), stop)
      ensures !terminated ==> UsesBudget(c, old(queryPeers.States()), queryPeers.States())
    {
      queryPeers.KeysInUniverse();
      ghost var s := View();
      var ready, next := MeasureAndAsk(stop);
      if ready {
        Terminate();
      }
      if !terminated {
        SpawnQueries(next);
      }
      assert View() == Decided(s, ready, Elements(next));
      DecideIsDecided(c, s, stop, ready, Elements(next));
      if !terminated {
        DecideUsesBudget(c, s, stop);
      }
    }

    /** Measure the budget and ask whether the lookup is over. */
    method MeasureAndAsk(stop: bool) returns (ready: bool, next: seq<PeerId>)
      requires Valid() && |Matching(queryPeers.States(), {Waiting})| <= c.alpha
      modifies queryPeers
      ensures Valid() && queryPeers.Contents() == old(queryPeers.Contents())
      ensures ready <==> stop || Starved(queryPeers.States()) || BetaQueried(c, queryPeers.States())
      ensures !ready ==>
                && Elements(next) <= queryPeers.States().Keys
                && Elements(next) == Elements(ClosestN(c.space, queryPeers.States(),
                                                       c.alpha - |Matching(queryPeers.States(), {Waiting})|, {Heard}))
    {
      queryPeers.KeysInUniverse();
      var waiting := queryPeers.NumWaiting();
      NextPeers(c, queryPeers.States(), c.alpha - waiting);
      ready, next := IsReadyToTerminate(c.alpha - waiting, stop);
    }

    /** What may happen before the loop's next select: any workers report anything they may,
        and the context may be cancelled. A worker reports if the select would block. */
    method Meanwhile(ghost answers: nat -> bool, ghost states: seq<State>, ghost events: seq<Event>)
      returns (ghost states': seq<State>, ghost events': seq<Event>)
      requires Valid() && IsRun(c, states, events) && states[|events|] == View() && Asked(events, answers)
      modifies this`ch, this`running, this`cancelled, this`ctxDone
      ensures Valid() && IsRun(c, states', events') && states'[|events'|] == View()
      ensures Asked(events', answers) && Iterations(events') == Iterations(events)
      ensures !terminated ==> ch != [] || cancelled
      ensures terminated ==> running == {}
    {
      states', events' := states, events;
      var cancel: bool := *;
      if cancel {
        ExtendRun(c, states', events', Cancel);
        AskedMore(events', Cancel, answers);
        states', events' := states' + [Next(c, View(), Cancel)], events' + [Cancel];
        cancelled, ctxDone := true, true;
      }
      var more: bool := *;
      while running != {} && (more || terminated || (ch == [] && !cancelled))
        invariant IsRun(c, states', events') && states'[|events'|] == View()
        invariant Asked(events', answers) && Iterations(events') == Iterations(events)
        invariant cancelled == old(cancelled) || cancelled
        decreases running
      {
        states', events' := OneReports(answers, states', events');
        more := *;
      }
      if !terminated {
        NeverWaitsForNothing(c, states', events', |events'|);
      }
    }

    /** Some worker reports whatever it may. */
    method OneReports(ghost answers: nat -> bool, ghost states: seq<State>, ghost events: seq<Event>)
      returns (ghost states': seq<State>, ghost events': seq<Event>)
      requires Valid() && IsRun(c, states, events) && states[|events|] == View() && Asked(events, answers)
      requires running != {}
      modifies this`ch, this`running
      ensures IsRun(c, states', events') && states'[|events'|] == View() && running < old(running)
      ensures Asked(events', answers) && Iterations(events') == Iterations(events)
    {
      var p :| p in running;
      var answered: bool := *;
      var duration: nat := *;
      assert Elements([]) <= c.space.universe - {c.self};
      var heard: seq<PeerId> :| Elements(heard) <= c.space.universe - {c.self};
      var up := if answered then Update(p, heard, [p], [], duration) else Update(p, [], [], [p], 0);
      WorkerCorrespondence(c, states, events, |events|);
      ExtendRun(c, states, events, Report(p, up));
      AskedMore(events, Report(p, up), answers);
      states', events' := states + [Next(c, View(), Report(p, up))], events + [Report(p, up)];
      running := running - {p};
      ch := ch + [up];
    }

    /** Run the lookup, with these answers of the stop function. It ends, whatever the workers, the context
        and the stop function do; it returns after all workers have reported; and what it did is a run of
        the state machine in which each iteration got the next answer. */
    method Run(answers: nat -> bool) returns (ghost states: seq<State>, ghost events: seq<Event>)
      requires Valid() && View() == Init(c)
      modifies this, queryPeers
      ensures Valid() && terminated && running == {}
      ensures IsRun(c, states, events) && states[|events|] == View() && Asked(events, answers)
    {
      states, events := [Init(c)], [];
      var calls: nat := 0;
      while !terminated
        invariant Valid() && IsRun(c, states, events) && states[|events|] == View()
        invariant Asked(events, answers) && calls == Iterations(events)
        decreases !terminated, |c.space.universe| + 1 - handled
      {
        states, events := Meanwhile(answers, states, events);
        states, events := Iterate(answers(calls), answers, states, events);
        calls := calls + 1;
      }
      states, events := Meanwhile(answers, states, events);
    }

    /** One iteration of the loop. */
    method Iterate(stop: bool, ghost answers: nat -> bool, ghost states: seq<State>, ghost events: seq<Event>)
      returns (ghost states': seq<State>, ghost events': seq<Event>)
      requires Valid() && IsRun(c, states, events) && states[|events|] == View()
      requires Asked(events, answers) && stop == answers(Iterations(events))
      requires !terminated && (ch != [] || cancelled)
      modifies this, queryPeers
      ensures Valid() && IsRun(c, states', events') && states'[|events'|] == View()
      ensures Asked(events', answers) && Iterations(events') == Iterations(events) + 1
      ensures !terminated ==> old(handled) < handled <= |c.space.universe| + 1
    {
      ghost var s := View();
      assert Inv(c, s) by {
        RunKeepsInv(c, states, events);
      }
      ghost var e := Select(stop);
      Conclude(stop);
      assert View() == Next(c, s, e);
      ExtendRun(c, states, events, e);
      AskedMore(events, e, answers);
      IterationAdvances(c, s, e);
      states', events' := states + [Next(c, s, e)], events + [e];
    }

    /** The select: receive an update, or give up on a cancelled context; either if both are
        possible. */
    method Select(stop: bool) returns (ghost e: Event)
      requires Valid() && Inv(c, View())
      requires !terminated && (ch != [] || cancelled)
      modifies this, queryPeers
      ensures Valid() && Enabled(c, old(View()), e) && (e == Handle(stop) || e == Abandon(stop))
      ensures View() ==
              if e.Handle? then Receive(c, old(View())) else old(View()).(terminated := true, cancelled := true)
      ensures !View().crashed && |Matching(queryPeers.States(), {Waiting})| <= c.alpha
      ensures terminated ==> cancelled
    {
      var prefersUpdate: bool := *;
      e := if ch != [] && (!cancelled || prefersUpdate) then Handle(stop) else Abandon(stop);
      ReadyToDecide(c, View(), e);
      if ch != [] && (!cancelled || prefersUpdate) {
        TakeUpdate();
      } else {
        Terminate();
      }
    }

    /** Receive an update from the channel and apply it. */
    method TakeUpdate()
      requires Valid() && Inv(c, View()) && !terminated && ch != []
      modifies this, queryPeers
      ensures Valid() && View() == Receive(c, old(View()))
      ensures handled == old(handled) + 1
    {
      ghost var s := View();
      ReceiveKeeps(c, s);
      HeadInUniverse(c, s);
      var up := ch[0];
      ch := ch[1..];
      handled := handled + 1;
      UpdateState(up);
    }

    /** Put the result together: the nearest peers not known to be unreachable with their
        states, the nearest peers of all, and whether the lookup completed. */
    method ConstructLookupResult() returns (r: Result)
      requires Valid()
      modifies queryPeers
      ensures Valid() && queryPeers.Contents() == old(queryPeers.Contents())
      ensures r.completed <==> Completed(c, queryPeers.States())
      ensures r.peers == ClosestN(c.space, queryPeers.States(), c.bucketSize, LIVE)
      ensures r.closest == ClosestN(c.space, queryPeers.States(), c.bucketSize, ANY)
      ensures |r.states| == |r.peers|
      ensures forall i | 0 <= i < |r.peers| ::
                r.peers[i] in queryPeers.States() && r.states[i] == queryPeers.States()[r.peers[i]]
    {
      var completed := IsLookupTermination();
      if !completed {
        completed := IsStarvationTermination();
      }
      var peers := queryPeers.GetClosestNInStates(c.bucketSize, LIVE);
      var closest := queryPeers.GetClosestNInStates(c.bucketSize, ANY);
      queryPeers.KeysInUniverse();
      ClosestNShape(c.space, queryPeers.States(), c.bucketSize, LIVE);
      var states := [];
      for i := 0 to |peers|
        invariant |states| == i
        invariant forall j | 0 <= j < i :: peers[j] in queryPeers.States() && states[j] == queryPeers.States()[peers[j]]
        modifies {}
      {
        assert peers[i] in Elements(peers);
        var state := queryPeers.GetState(peers[i]);
        states := states + [state];
      }
      r := Result(peers, states, closest, completed);
    }
  }

  lemma ExtendRun(c: Config, states: seq<State>, events: seq<Event>, e: Event)
    requires IsRun(c, states, events) && Enabled(c, states[|events|], e)
    ensures IsRun(c, states + [Next(c, states[|events|], e)], events + [e])
  {
  }

  /** The peers named by the next update belong to the universe. */
  lemma HeadInUniverse(c: Config, s: State)
    requires c.Valid() && Consistent(c, s) && s.ch != []
    ensures Elements(s.ch[0].heard) <= c.space.universe
    ensures !Receive(c, s).crashed ==> Absorb(s.peers, c.self, s.ch[0]).Some?
  {
  }

  /** Between its two halves, an iteration waits for no more than alpha peers. */
  lemma ReadyToDecide(c: Config, s: State, e: Event)
    requires c.Valid() && Inv(c, s) && Enabled(c, s, e) && (e.Handle? || e.Abandon?)
    ensures var half := if e.Handle? then Receive(c, s) else s.(terminated := true, cancelled := true);
            && |Matching(half.peers, {Waiting})| <= c.alpha
            && !half.crashed
            && (half.terminated ==> half.cancelled)
  {
    if e.Handle? {
      ReceiveKeeps(c, s);
    }
  }

  /** An iteration that does not end the loop has received one of boundedly many updates. */
  lemma IterationAdvances(c: Config, s: State, e: Event)
    requires c.Valid() && Inv(c, s) && Enabled(c, s, e) && (e.Handle? || e.Abandon?)
    ensures !Next(c, s, e).terminated ==> s.handled < Next(c, s, e).handled <= |c.space.universe| + 1
  {
    if e.Handle? {
      NextKeepsInv(c, s, e);
      var t := Next(c, s, e);
      assert t.handled == s.handled + 1 by {
        StepCounts(c, s, e, t);
      }
      UpdatesBounded(c, t);
    } else {
      AbandonEnds(c, s, e.stop);
    }
  }
}
