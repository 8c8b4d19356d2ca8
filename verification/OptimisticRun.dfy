/** An optimistic provide as the program runs it, shown to follow the state machine of module
    OptimisticProvide in every interleaving of its goroutines and of other provides. */
module OptimisticRun {
  import opened Base
  import opened OptimisticProvide

  lemma ScheduleOne(s: State, p: PeerId)
    ensures ScheduleAll(s, [p]) ==
            s.(states := s.states[p := Scheduled], issued := s.issued + [p], flying := s.flying + {p})
  {
  }

  lemma ScheduleMore(s: State, ps: seq<PeerId>, p: PeerId)
    ensures ScheduleAll(ScheduleAll(s, ps), [p]) == ScheduleAll(s, ps + [p])
  {
    ScheduleOne(ScheduleAll(s, ps), p);
    ElementsAppend(ps, p);
    assert s.issued + ps + [p] == s.issued + (ps + [p]);
    assert (s.states + map q | q in ps :: Scheduled)[p := Scheduled] == s.states + map q | q in ps + [p] :: Scheduled;
    assert s.flying + Elements(ps) + {p} == s.flying + Elements(ps + [p]);
  }

  lemma ScheduleNone(s: State)
    ensures ScheduleAll(s, []) == s
  {
  }

  lemma ExtendRun(c: Config, others: nat, states: seq<State>, events: seq<Event>, e: Event)
    requires IsRun(c, others, states, events) && Enabled(c, states[|events|], e)
    ensures IsRun(c, others, states + [Next(c, states[|events|], e)], events + [e])
  {
  }

  /** The peers that a record is being sent to or was sent to with success. */
  function Live(states: map<PeerId, RpcState>): set<PeerId> {
    set p | p in states && states[p] != Failure
  }

  /** Those are the peers sent a record whose send has not returned an error. */
  lemma LiveIsNotFailed(c: Config, others: nat, states: seq<State>, events: seq<Event>)
    requires IsRun(c, others, states, events)
    ensures Live(states[|events|].states) == states[|events|].states.Keys - Failed(events)
  {
    forall p
      ensures p in Live(states[|events|].states) <==> p in states[|events|].states.Keys - Failed(events)
    {
      FailureIsFailed(c, others, states, events, p);
    }
  }

  lemma LiveStep(states: map<PeerId, RpcState>, todo: set<PeerId>, p: PeerId)
    requires p in todo && p in states
    ensures |Live(states) - (todo - {p})| == |Live(states) - todo| + if states[p] == Failure then 0 else 1
  {
    assert Live(states) - (todo - {p}) == (Live(states) - todo) + if states[p] == Failure then {} else {p};
  }

  lemma LiveAmong(states: map<PeerId, RpcState>, peers: set<PeerId>)
    requires states.Keys == peers
    ensures |Live(states)| <= |peers|
  {
    SubsetCardinality(Live(states), peers);
  }

  /** The providing goroutine waits for the completion channel or the lease pool. */
  predicate Blocked(c: Config, s: State) {
    && (s.phase == Collecting || (s.phase.Dispatching? && s.phase.i < s.rpcCount - s.threshold))
    && s.buffered == 0 && !s.closed
    && (s.phase == Collecting || s.pool >= c.poolSize)
  }

  /** The near ones of some peers. */
  function NearOnes(peers: seq<PeerId>, near: PeerId -> bool): set<PeerId> {
    set p | p in peers && near(p)
  }

  /** What a call of the stop function sees: the nearest peers, and whether they are near as a set. */
  datatype Call = Call(closest: seq<PeerId>, setIsNear: bool)

  /** The near peers at some calls of the stop function. */
  function NearAtCalls(calls: seq<Call>, near: PeerId -> bool): set<PeerId> {
    if calls == [] then {} else NearAtCalls(calls[..|calls| - 1], near) + NearOnes(calls[|calls| - 1].closest, near)
  }

  /** Of some calls that may be made, the first ones were: up to one that asked for an end, or all. */
  predicate Called(calls: seq<Call>, called: nat, stopped: bool) {
    && called <= |calls|
    && (stopped ==> called > 0)
    && (!stopped ==> called == |calls|)
    && forall i | 0 <= i < called :: calls[i].setIsNear ==> stopped && i == called - 1
  }

  /** Only the last of the calls so far asked for an end, if any, and it did for one of the two reasons. */
  predicate AskedSoFar(calls: seq<Call>, called: nat, stopped: bool, live: nat, bucketSize: nat) {
    && called <= |calls|
    && (stopped <==> called > 0 && (calls[called - 1].setIsNear || live >= bucketSize))
    && forall i | 0 <= i < called :: calls[i].setIsNear ==> stopped && i == called - 1
  }

  lemma AskedMore(calls: seq<Call>, called: nat, before: nat, live: nat, stop: bool, bucketSize: nat)
    requires called < |calls| && AskedSoFar(calls, called, false, before, bucketSize)
    requires stop <==> calls[called].setIsNear || live >= bucketSize
    ensures AskedSoFar(calls, called + 1, stop, live, bucketSize)
  {
  }

  lemma SentMore(
      sent: set<PeerId>, keys: set<PeerId>, after: set<PeerId>, calls: seq<Call>, near: PeerId -> bool, i: nat)
    requires i < |calls| && keys == sent + NearAtCalls(calls[..i], near)
    requires after == keys + NearOnes(calls[i].closest, near)
    ensures after == sent + NearAtCalls(calls[..i + 1], near)
  {
    assert calls[..i + 1][..i] == calls[..i];
  }

  lemma NearOnesMore(peers: seq<PeerId>, near: PeerId -> bool, i: nat)
    requires i < |peers|
    ensures NearOnes(peers[..i + 1], near) == NearOnes(peers[..i], near) + if near(peers[i]) then {peers[i]} else {}
  {
    assert peers[..i + 1] == peers[..i] + [peers[i]];
  }

  predicate HelperCanMove(c: Config, s: State) {
    || s.flying != {}
    || (s.sending != {} && s.buffered < c.capacity)
    || (s.waiting > 0 && s.buffered > 0)
    || s.releasing > 0
    || s.counting > 0
  }

  predicate IsHelper(e: Event) {
    e.RpcReturns? || e.Send? || e == ConsumerReceives || e == ConsumerReleases || e == ConsumerCounts
  }

  /** What the other goroutines' steps leave alone. */
  lemma HelperFrame(c: Config, s: State, e: Event)
    requires c.capacity > 0 && Inv(c, s) && s.phase != Walking && Enabled(c, s, e)
    requires IsHelper(e) || e == OtherAcquires || e == OtherReleases
    ensures Next(c, s, e).states.Keys == s.states.Keys
    ensures 0 <= Work(Next(c, s, e)) <= Work(s)
    ensures IsHelper(e) ==> Work(Next(c, s, e)) < Work(s)
  {
    assert IsHelper(e) ==> Internal(e);
    NextKeepsInv(c, s, e);
    WorkNonnegative(c, Next(c, s, e));
    if IsHelper(e) {
      WorkShrinks(c, s, e);
    } else {
      WorkIsOwn(c, s, e);
    }
  }

  lemma KeysStay(c: Config, s: State, e: Event)
    requires s.flying <= s.states.Keys && Enabled(c, s, e) && IsHelper(e)
    ensures Next(c, s, e).states.Keys == s.states.Keys
  {
    if e.RpcReturns? {
      assert e.p in s.states;
    }
  }

  lemma FinishSends(c: Config, s: State, peers: seq<PeerId>)
    requires Enabled(c, s, Finish(peers))
    ensures Next(c, s, Finish(peers)).states.Keys == s.states.Keys + Elements(peers)
  {
    MissingIsNew(s.states, peers);
    assert forall p :: p in Missing(s.states, peers) <==> p in Elements(Missing(s.states, peers));
  }

  /** Whenever the providing goroutine waits, or has returned with work left, another goroutine
      of its provide can move. */
  lemma SomeHelperCanMove(c: Config, s: State)
    requires c.capacity > 0 && Inv(c, s) && s.phase != Walking && s.states != map[]
    requires Blocked(c, s) || (s.phase == Returned && !Over(s))
    ensures HelperCanMove(c, s)
  {
  }

  class Provide {
    const c: Config
    var peerStates: map<PeerId, RpcState>
    var returnThreshold: nat
    var putProvDone: nat
    var rpcCount: nat
    // The completions in the channel, and whether it is closed; the leases of the shared pool.
    var buffered: nat
    var closed: bool
    var pool: nat
    // Where the other goroutines are.
    var flying: set<PeerId>
    var sending: set<PeerId>
    var waiting: nat
    var releasing: nat
    var counting: nat
    var others: nat
    /** How far the providing goroutine is. */
    var phase: Phase
    ghost var issued: seq<PeerId>
    ghost var received: nat
    ghost var closes: nat

    /** No field represents a crash: that none happens is what the methods' proofs show. */
    ghost function View(): State
      reads this
    {
      State(phase, peerStates, issued, flying, sending, buffered, received, putProvDone,
            if phase == Walking then 0 else returnThreshold, rpcCount,
            waiting, releasing, counting, pool, others, closed, closes, false)
    }

    ghost predicate Ready()
      reads this`phase, this`returnThreshold, this`rpcCount
    {
      c.capacity > 0 && (phase == Walking ==> returnThreshold == c.capacity && rpcCount == 0)
    }

    constructor (c: Config, others: nat)
      requires c.capacity > 0
      ensures this.c == c && View() == Init(others) && Ready()
    {
      this.c := c;
      peerStates, returnThreshold, putProvDone, rpcCount := map[], c.capacity, 0, 0;
      buffered, closed, pool := 0, false, others;
      flying, sending, waiting, releasing, counting := {}, {}, 0, 0, 0;
      this.others := others;
      phase, issued, received, closes := Walking, [], 0, 0;
    }

    /** What happened so far is a run of the state machine that leads to the present state. */
    ghost predicate Follows(others0: nat, states: seq<State>, events: seq<Event>)
      reads this
    {
      IsRun(c, others0, states, events) && states[|events|] == View()
    }

    predicate MustWait()
      reads this
      ensures MustWait() <==> Blocked(c, View())
    {
      && (phase == Collecting || (phase.Dispatching? && phase.i < rpcCount - returnThreshold))
      && buffered == 0 && !closed
      && (phase == Collecting || pool >= c.poolSize)
    }

    predicate Unfinished()
      reads this
      ensures Unfinished() <==> phase == Returned && !Over(View())
    {
      phase == Returned && !(flying == {} && sending == {} && waiting + releasing + counting == 0)
    }

    predicate OthersCanMove()
      reads this
      ensures OthersCanMove() <==> HelperCanMove(c, View())
    {
      || flying != {} || (sending != {} && buffered < c.capacity) || (waiting > 0 && buffered > 0)
      || releasing > 0 || counting > 0
    }

    // ---------- Scheduling ----------

    /** Start a goroutine that sends a record. */
    method Launch(p: PeerId)
      requires p !in peerStates
      modifies this`peerStates, this`flying, this`issued
      ensures View() == ScheduleAll(old(View()), [p])
    {
      ScheduleOne(View(), p);
      flying, issued := flying + {p}, issued + [p];
      peerStates := peerStates[p := Scheduled];
    }

    /** The stop function of the lookup: send records to near peers right away, and stop if
        enough have been sent or the nearest peers are near enough together. */
    method StopFn(closest: seq<PeerId>, near: PeerId -> bool, bucketSize: nat, setIsNear: bool,
                  ghost states: seq<State>, ghost events: seq<Event>, ghost others0: nat)
      returns (stop: bool, ghost states': seq<State>, ghost events': seq<Event>)
      requires Ready() && phase == Walking && Follows(others0, states, events)
      modifies this`peerStates, this`flying, this`issued
      ensures Ready() && Follows(others0, states', events')
      ensures peerStates.Keys == old(peerStates.Keys) + NearOnes(closest, near)
      ensures stop <==> |Live(peerStates)| >= bucketSize || setIsNear
    {
      states', events' := states, events;
      for i := 0 to |closest|
        invariant Ready() && Follows(others0, states', events')
        invariant peerStates.Keys == old(peerStates.Keys) + NearOnes(closest[..i], near)
      {
        NearOnesMore(closest, near, i);
        if closest[i] in peerStates || !near(closest[i]) {
          continue;
        }
        states', events' := LaunchNear(closest[i], others0, states', events');
      }
      assert closest[..|closest|] == closest;
      var count := CountLive();
      stop := count >= bucketSize || setIsNear;
    }

    method LaunchNear(p: PeerId, ghost others0: nat, ghost states: seq<State>, ghost events: seq<Event>)
      returns (ghost states': seq<State>, ghost events': seq<Event>)
      requires phase == Walking && p !in peerStates && Follows(others0, states, events)
      modifies this`peerStates, this`flying, this`issued
      ensures Follows(others0, states', events') && peerStates.Keys == old(peerStates.Keys) + {p}
    {
      ScheduleOne(View(), p);
      ghost var e := Schedule(p);
      ExtendRun(c, others0, states, events, e);
      Launch(p);
      states', events' := states + [View()], events + [e];
    }

    method CountLive() returns (count: nat)
      ensures count == |Live(peerStates)|
    {
      count := 0;
      var todo := peerStates.Keys;
      while todo != {}
        invariant todo <= peerStates.Keys
        invariant count == |Live(peerStates) - todo|
      {
        var p :| p in todo;
        LiveStep(peerStates, todo, p);
        if peerStates[p] == Scheduled || peerStates[p] == Success {
          count := count + 1;
        }
        todo := todo - {p};
      }
      assert Live(peerStates) - todo == Live(peerStates);
    }

    /** Send records to the peers of the lookup's result that were not scheduled before, and
        start waiting. */
    method FinishScheduling(peers: seq<PeerId>)
      requires Ready() && phase == Walking
      modifies this`peerStates, this`flying, this`issued, this`returnThreshold, this`rpcCount, this`phase
      ensures View() == Next(c, old(View()), Finish(peers))
    {
      ScheduleRest(peers);
      StartWaiting();
    }

    method ScheduleRest(peers: seq<PeerId>)
      modifies this`peerStates, this`flying, this`issued
      ensures View() == ScheduleAll(old(View()), Missing(old(peerStates), peers))
    {
      ghost var s := View();
      ScheduleNone(s);
      for i := 0 to |peers|
        invariant View() == ScheduleAll(s, Missing(s.states, peers[..i]))
      {
        assert peers[..i + 1][..i] == peers[..i];
        if peers[i] in peerStates {
          continue;
        }
        ScheduleMore(s, Missing(s.states, peers[..i]), peers[i]);
        Launch(peers[i]);
      }
      assert peers[..|peers|] == peers;
    }

    /** The threshold cannot be larger than the number of records sent. */
    method StartWaiting()
      requires Ready() && phase == Walking
      modifies this`returnThreshold, this`rpcCount, this`phase
      ensures var n := |peerStates|;
              View() == old(View()).(phase := Collecting, rpcCount := n,
                                     threshold := if c.capacity > n then n else c.capacity)
    {
      rpcCount := |peerStates|;
      if returnThreshold > rpcCount {
        returnThreshold := rpcCount;
      }
      phase := Collecting;
    }

    // ---------- The other goroutines ----------

    method RpcDone() returns (ghost e: Event)
      requires flying != {}
      modifies this`peerStates, this`flying, this`sending
      ensures IsHelper(e) && Step(c, old(View()), e, View())
      ensures e.RpcReturns? && peerStates == old(peerStates)[e.p := if e.ok then Success else Failure]
    {
      var p :| p in flying;
      var ok: bool := *;
      e := RpcReturns(p, ok);
      peerStates := peerStates[p := if ok then Success else Failure];
      flying, sending := flying - {p}, sending + {p};
    }

    method SendDone() returns (ghost e: Event)
      requires Inv(c, View()) && sending != {} && buffered < c.capacity
      modifies this`sending, this`buffered
      ensures IsHelper(e) && Step(c, old(View()), e, View())
    {
      SenderFindsItOpen(c, View());
      var p :| p in sending;
      e := Send(p);
      sending, buffered := sending - {p}, buffered + 1;
    }

    /** A consumer receives a completion, ... */
    method ConsumeOne() returns (ghost e: Event)
      requires waiting > 0 && buffered > 0
      modifies this`buffered, this`received, this`waiting, this`releasing
      ensures IsHelper(e) && Step(c, old(View()), e, View())
    {
      e := ConsumerReceives;
      buffered, received := buffered - 1, received + 1;
      waiting, releasing := waiting - 1, releasing + 1;
    }

    /** ... gives its lease back, ... */
    method ReleaseLease() returns (ghost e: Event)
      requires Inv(c, View()) && releasing > 0
      modifies this`pool, this`releasing, this`counting
      ensures IsHelper(e) && Step(c, old(View()), e, View())
    {
      e := ConsumerReleases;
      pool, releasing, counting := pool - 1, releasing - 1, counting + 1;
    }

    /** ... and counts the completion. */
    method CountConsumed() returns (ghost e: Event)
      requires Inv(c, View()) && counting > 0
      modifies this`counting, this`putProvDone, this`closed, this`closes
      ensures IsHelper(e) && Step(c, old(View()), e, View())
    {
      e := ConsumerCounts;
      ConsumerCountKeeps(c, View());
      counting := counting - 1;
      CountOne();
    }

    /** Count a completion and close the channel on the last of all. */
    method CountOne()
      requires !CountLast(View()).crashed
      modifies this`putProvDone, this`closed, this`closes
      ensures View() == CountLast(old(View()))
    {
      putProvDone := putProvDone + 1;
      if putProvDone == rpcCount {
        closed, closes := true, closes + 1;
      }
    }

    /** One move of one of them. */
    method HelperMove() returns (ghost e: Event)
      requires Inv(c, View()) && HelperCanMove(c, View())
      modifies this`peerStates, this`flying, this`sending, this`buffered, this`received, this`waiting,
               this`releasing, this`counting, this`pool, this`putProvDone, this`closed, this`closes
      ensures IsHelper(e) && Step(c, old(View()), e, View())
    {
      if {
        case flying != {} => e := RpcDone();
        case sending != {} && buffered < c.capacity => e := SendDone();
        case waiting > 0 && buffered > 0 => e := ConsumeOne();
        case releasing > 0 => e := ReleaseLease();
        case counting > 0 => e := CountConsumed();
      }
    }

    /** Other provides take or give back a lease, if they can. */
    method OtherMove() returns (ghost e: Option<Event>)
      modifies this`pool, this`others
      ensures e.None? ==> View() == old(View())
      ensures e.Some? ==>
                && (e.value == OtherAcquires || e.value == OtherReleases)
                && Enabled(c, old(View()), e.value) && View() == Next(c, old(View()), e.value)
    {
      e := None;
      var acquire: bool := *;
      if acquire && pool < c.poolSize {
        e := Some(OtherAcquires);
        pool, others := pool + 1, others + 1;
      } else if !acquire && others > 0 && pool > 0 {
        e := Some(OtherReleases);
        pool, others := pool - 1, others - 1;
      }
    }

    /** What happens before the providing goroutine's next step, or after its last: the other
        goroutines of the provide move as they like, at least until the step is not blocked or
        until they are done; and other provides use the pool. */
    method Meanwhile(ghost others0: nat, ghost states: seq<State>, ghost events: seq<Event>)
      returns (ghost states': seq<State>, ghost events': seq<Event>)
      requires Ready() && peerStates.Keys != {} && phase != Walking
      requires Follows(others0, states, events)
      modifies this`peerStates, this`flying, this`sending, this`buffered, this`received, this`waiting,
               this`releasing, this`counting, this`pool, this`putProvDone, this`closed, this`closes, this`others
      ensures Follows(others0, states', events')
      ensures peerStates.Keys == old(peerStates.Keys) && 0 <= Work(View()) <= old(Work(View()))
      ensures !Blocked(c, View()) && (phase == Returned ==> Over(View()))
    {
      states', events' := states, events;
      WorkOfRun(c, others0, states', events');
      var moreOthers: nat := *;
      var eager: bool := *;
      while moreOthers > 0 || MustWait() || Unfinished() || (eager && OthersCanMove())
        invariant Follows(others0, states', events')
        invariant peerStates.Keys == old(peerStates.Keys) && 0 <= Work(View()) <= old(Work(View()))
        decreases Work(View()), moreOthers
      {
        if moreOthers > 0 {
          moreOthers := moreOthers - 1;
          states', events' := OtherTurn(others0, states', events');
        } else {
          states', events' := HelperTurn(others0, states', events');
          eager := *;
        }
      }
    }

    method HelperTurn(ghost others0: nat, ghost states: seq<State>, ghost events: seq<Event>)
      returns (ghost states': seq<State>, ghost events': seq<Event>)
      requires Ready() && peerStates.Keys != {} && phase != Walking
      requires Follows(others0, states, events)
      requires MustWait() || Unfinished() || OthersCanMove()
      modifies this`peerStates, this`flying, this`sending, this`buffered, this`received, this`waiting,
               this`releasing, this`counting, this`pool, this`putProvDone, this`closed, this`closes
      ensures Follows(others0, states', events')
      ensures peerStates.Keys == old(peerStates.Keys) && 0 <= Work(View()) < old(Work(View()))
    {
      ghost var s := View();
      RunKeepsInv(c, others0, states, events);
      if MustWait() || Unfinished() {
        SomeHelperCanMove(c, s);
      }
      ghost var e := HelperMove();
      HelperFrame(c, s, e);
      ExtendRun(c, others0, states, events, e);
      states', events' := states + [View()], events + [e];
    }

    method OtherTurn(ghost others0: nat, ghost states: seq<State>, ghost events: seq<Event>)
      returns (ghost states': seq<State>, ghost events': seq<Event>)
      requires Ready()
      requires Follows(others0, states, events)
      modifies this`pool, this`others
      ensures Follows(others0, states', events')
      ensures Work(View()) == old(Work(View()))
    {
      states', events' := states, events;
      ghost var s := View();
      ghost var e := OtherMove();
      if e.Some? {
        WorkIsOwn(c, s, e.value);
        ExtendRun(c, others0, states, events, e.value);
        states', events' := states + [View()], events + [e.value];
      }
    }

    // ---------- The providing goroutine ----------

    method ReceiveOne()
      requires Inv(c, View()) && Enabled(c, View(), Receive)
      modifies this`buffered, this`received, this`phase
      ensures Step(c, old(View()), Receive, View())
    {
      ReceiverFindsOne(c, View());
      buffered, received := buffered - 1, received + 1;
      phase := if phase == Collecting then Counting else Adding(phase.i);
    }

    method CountReceived()
      requires Inv(c, View()) && Enabled(c, View(), Count)
      modifies this`putProvDone, this`closed, this`closes, this`phase
      ensures Step(c, old(View()), Count, View())
    {
      CountKeeps(c, View());
      if phase == Counting {
        putProvDone := putProvDone + 1;
        phase := if putProvDone == returnThreshold then Dispatching(0) else Collecting;
      } else {
        CountOne();
        phase := Dispatching(phase.i + 1);
      }
    }

    /** Acquire a lease and start a consumer that holds it. */
    method AcquireLease()
      requires Enabled(c, View(), Lease)
      modifies this`pool, this`waiting, this`phase
      ensures Step(c, old(View()), Lease, View())
    {
      pool, waiting := pool + 1, waiting + 1;
      phase := Dispatching(phase.i + 1);
    }

    method GiveControlBack()
      requires Enabled(c, View(), Return)
      modifies this`phase
      ensures Step(c, old(View()), Return, View())
    {
      phase := Returned;
    }

    method ReceiveTurn(ghost others0: nat, ghost states: seq<State>, ghost events: seq<Event>)
      returns (ghost states': seq<State>, ghost events': seq<Event>)
      requires Ready() && Enabled(c, View(), Receive) && Follows(others0, states, events)
      modifies this`buffered, this`received, this`phase
      ensures Follows(others0, states', events') && 0 <= Work(View()) < old(Work(View()))
      ensures phase == if old(phase) == Collecting then Counting else Adding(old(phase.i))
    {
      RunKeepsInv(c, others0, states, events);
      OwnFrame(c, View(), Receive);
      ExtendRun(c, others0, states, events, Receive);
      ReceiveOne();
      states', events' := states + [View()], events + [Receive];
    }

    method CountTurn(ghost others0: nat, ghost states: seq<State>, ghost events: seq<Event>)
      returns (ghost states': seq<State>, ghost events': seq<Event>)
      requires Ready() && Enabled(c, View(), Count) && Follows(others0, states, events)
      modifies this`putProvDone, this`closed, this`closes, this`phase
      ensures Follows(others0, states', events') && 0 <= Work(View()) < old(Work(View()))
      ensures phase == if old(phase).Adding? then Dispatching(old(phase.i) + 1)
                       else if putProvDone == returnThreshold then Dispatching(0) else Collecting
    {
      RunKeepsInv(c, others0, states, events);
      OwnFrame(c, View(), Count);
      ExtendRun(c, others0, states, events, Count);
      CountReceived();
      states', events' := states + [View()], events + [Count];
    }

    /** Receive a completion and count it. */
    method Collect(ghost others0: nat, ghost states: seq<State>, ghost events: seq<Event>)
      returns (ghost states': seq<State>, ghost events': seq<Event>)
      requires Ready() && peerStates.Keys != {} && Enabled(c, View(), Receive) && Follows(others0, states, events)
      modifies this`peerStates, this`flying, this`sending, this`buffered, this`received, this`waiting, this`releasing,
               this`counting, this`pool, this`putProvDone, this`closed, this`closes, this`others, this`phase
      ensures Ready() && peerStates.Keys == old(peerStates.Keys) && Follows(others0, states', events')
      ensures phase == if old(phase).Dispatching? then Dispatching(old(phase.i) + 1)
                       else if putProvDone == returnThreshold then Dispatching(0) else Collecting
      ensures 0 <= Work(View()) < old(Work(View()))
    {
      states', events' := ReceiveTurn(others0, states, events);
      states', events' := Meanwhile(others0, states', events');
      states', events' := CountTurn(others0, states', events');
    }

    method HandOver(ghost others0: nat, ghost states: seq<State>, ghost events: seq<Event>)
      returns (ghost states': seq<State>, ghost events': seq<Event>)
      requires Enabled(c, View(), Lease) && Follows(others0, states, events)
      modifies this`pool, this`waiting, this`phase
      ensures Follows(others0, states', events') && phase == Dispatching(old(phase.i) + 1)
    {
      ExtendRun(c, others0, states, events, Lease);
      AcquireLease();
      states', events' := states + [View()], events + [Lease];
    }

    /** Wait for as many completions as the threshold says. */
    method WaitForEnough(ghost others0: nat, ghost states: seq<State>, ghost events: seq<Event>)
      returns (ghost states': seq<State>, ghost events': seq<Event>)
      requires Ready() && peerStates.Keys != {} && phase == Collecting && Follows(others0, states, events)
      modifies this
      ensures Ready() && peerStates.Keys == old(peerStates.Keys) && phase == Dispatching(0)
      ensures Follows(others0, states', events')
    {
      states', events' := states, events;
      while phase == Collecting
        invariant Ready() && peerStates.Keys == old(peerStates.Keys) && (phase == Collecting || phase == Dispatching(0))
        invariant Follows(others0, states', events')
        decreases phase == Collecting, Work(View())
      {
        WorkOfRun(c, others0, states', events');
        states', events' := Meanwhile(others0, states', events');
        states', events' := Collect(others0, states', events');
      }
    }

    /** Hand each remaining completion over to a consumer that holds a lease, or count it here if
        it comes first. */
    method DealWithRest(ghost others0: nat, ghost states: seq<State>, ghost events: seq<Event>)
      returns (ghost states': seq<State>, ghost events': seq<Event>)
      requires Ready() && peerStates.Keys != {} && phase == Dispatching(0) && Follows(others0, states, events)
      modifies this
      ensures Ready() && peerStates.Keys == old(peerStates.Keys)
      ensures Follows(others0, states', events') && Enabled(c, View(), Return)
    {
      states', events' := states, events;
      NoneCountedMore(c, others0, states, events);
      var remaining := rpcCount - putProvDone;
      for i := 0 to remaining
        invariant Ready() && peerStates.Keys == old(peerStates.Keys) && Follows(others0, states', events')
        invariant phase == Dispatching(i) && remaining == rpcCount - returnThreshold
      {
        states', events' := DealWithOne(others0, states', events');
      }
    }

    method DealWithOne(ghost others0: nat, ghost states: seq<State>, ghost events: seq<Event>)
      returns (ghost states': seq<State>, ghost events': seq<Event>)
      requires Ready() && peerStates.Keys != {} && Follows(others0, states, events)
      requires phase.Dispatching? && phase.i < rpcCount - returnThreshold
      modifies this`peerStates, this`flying, this`sending, this`buffered, this`received, this`waiting, this`releasing,
               this`counting, this`pool, this`putProvDone, this`closed, this`closes, this`others, this`phase
      ensures Ready() && peerStates.Keys == old(peerStates.Keys) && Follows(others0, states', events')
      ensures phase == Dispatching(old(phase.i) + 1)
    {
      states', events' := Meanwhile(others0, states, events);
      if {
        case pool < c.poolSize =>
          states', events' := HandOver(others0, states', events');
        case buffered > 0 || closed =>
          states', events' := Collect(others0, states', events');
      }
    }

    /** Wait for completions and give control back. */
    method WaitForRPCs(ghost others0: nat, ghost states: seq<State>, ghost events: seq<Event>)
      returns (ghost states': seq<State>, ghost events': seq<Event>)
      requires Ready() && peerStates.Keys != {} && phase == Collecting && Follows(others0, states, events)
      modifies this
      ensures Ready() && peerStates.Keys == old(peerStates.Keys) && phase == Returned
      ensures Follows(others0, states', events')
    {
      states', events' := WaitForEnough(others0, states, events);
      states', events' := DealWithRest(others0, states', events');
      ExtendRun(c, others0, states', events', Return);
      GiveControlBack();
      states', events' := states' + [View()], events' + [Return];
    }

    /** While the lookup goes on, sends may complete and other provides use the pool. */
    method WhileWalking(ghost others0: nat, ghost states: seq<State>, ghost events: seq<Event>)
      returns (ghost states': seq<State>, ghost events': seq<Event>)
      requires Ready() && phase == Walking && Follows(others0, states, events)
      modifies this`peerStates, this`flying, this`sending, this`buffered, this`received, this`waiting,
               this`releasing, this`counting, this`pool, this`putProvDone, this`closed, this`closes, this`others
      ensures Follows(others0, states', events') && peerStates.Keys == old(peerStates.Keys)
    {
      states', events' := states, events;
      var moves :| moves >= 0;
      for i := 0 to moves
        invariant Follows(others0, states', events') && peerStates.Keys == old(peerStates.Keys)
      {
        var own: bool := *;
        if own && OthersCanMove() {
          states', events' := HelperWalks(others0, states', events');
        } else {
          states', events' := OtherTurn(others0, states', events');
        }
      }
    }

    method HelperWalks(ghost others0: nat, ghost states: seq<State>, ghost events: seq<Event>)
      returns (ghost states': seq<State>, ghost events': seq<Event>)
      requires Ready() && phase == Walking && Follows(others0, states, events) && OthersCanMove()
      modifies this`peerStates, this`flying, this`sending, this`buffered, this`received, this`waiting,
               this`releasing, this`counting, this`pool, this`putProvDone, this`closed, this`closes
      ensures Follows(others0, states', events') && peerStates.Keys == old(peerStates.Keys)
    {
      RunKeepsInv(c, others0, states, events);
      ghost var s := View();
      ghost var e := HelperMove();
      KeysStay(c, s, e);
      ExtendRun(c, others0, states, events, e);
      states', events' := states + [View()], events + [e];
    }

    /** Provide: walk holds what each call of the stop function sees that the lookup may make, follow
        the same for the calls while its follow-ups run, and result the peers of the lookup's result. In
        both, an answer that asks for an end is the last one. What happens is a run of the state machine
        that cannot go on. The peers that are sent a record are exactly the near ones at the calls made and
        those of the result. If there is any, control is given back and all goroutines have ended. */
    method Run(walk: seq<Call>, follow: seq<Call>, near: PeerId -> bool, bucketSize: nat,
               result: seq<PeerId>, ghost others0: nat)
      returns (walked: nat, walkStopped: bool, followed: nat, followStopped: bool,
               ghost states: seq<State>, ghost events: seq<Event>)
      requires Ready() && View() == Init(others0) && others0 <= c.poolSize
      modifies this
      ensures Follows(others0, states, events)
      ensures IsMaximal(c, others0, states, events) && (Over(View()) <==> peerStates.Keys != {})
      ensures Called(walk, walked, walkStopped) && Called(follow, followed, followStopped)
      ensures walkStopped ==> walk[walked - 1].setIsNear || |NearAtCalls(walk[..walked], near)| >= bucketSize
      ensures followStopped ==>
                || follow[followed - 1].setIsNear
                || |NearAtCalls(walk[..walked], near) + NearAtCalls(follow[..followed], near)| >= bucketSize
      ensures peerStates.Keys ==
              NearAtCalls(walk[..walked], near) + NearAtCalls(follow[..followed], near) + Elements(result)
    {
      states, events := [Init(others0)], [];
      walked, walkStopped, states, events := AskToStop(walk, near, bucketSize, others0, states, events);
      LiveAmong(peerStates, NearAtCalls(walk[..walked], near));
      followed, followStopped, states, events := AskToStop(follow, near, bucketSize, others0, states, events);
      LiveAmong(peerStates, NearAtCalls(walk[..walked], near) + NearAtCalls(follow[..followed], near));
      states, events := EndLookup(result, others0, states, events);
      states, events := WaitIfSent(others0, states, events);
    }

    /** Wait, if there is anything to wait for. With nothing sent the program waits forever; this method
        stops at that point, in a state in which no goroutine of the provide can go on. */
    method WaitIfSent(ghost others0: nat, ghost states: seq<State>, ghost events: seq<Event>)
      returns (ghost states': seq<State>, ghost events': seq<Event>)
      requires Ready() && phase == Collecting && Follows(others0, states, events)
      modifies this
      ensures Follows(others0, states', events') && peerStates.Keys == old(peerStates.Keys)
      ensures IsMaximal(c, others0, states', events') && (Over(View()) <==> peerStates.Keys != {})
    {
      states', events' := states, events;
      if |peerStates| > 0 {
        states', events' := WaitForRPCs(others0, states', events');
        states', events' := Meanwhile(others0, states', events');
      }
      MaximalIf(c, others0, states', events');
    }

    /** One call of the stop function, and what happens before it. */
    method Ask(call: Call, near: PeerId -> bool, bucketSize: nat,
               ghost others0: nat, ghost states: seq<State>, ghost events: seq<Event>)
      returns (stop: bool, ghost states': seq<State>, ghost events': seq<Event>)
      requires Ready() && phase == Walking && Follows(others0, states, events)
      modifies this`peerStates, this`flying, this`issued, this`sending, this`buffered, this`received, this`waiting,
               this`releasing, this`counting, this`pool, this`putProvDone, this`closed, this`closes, this`others
      ensures Follows(others0, states', events')
      ensures peerStates.Keys == old(peerStates.Keys) + NearOnes(call.closest, near)
      ensures stop <==> call.setIsNear || |Live(peerStates)| >= bucketSize
    {
      states', events' := WhileWalking(others0, states, events);
      stop, states', events' := StopFn(call.closest, near, bucketSize, call.setIsNear, states', events', others0);
    }

    /** The calls made so far, and the peers they had records sent to beside those sent before. */
    ghost predicate Asked(sent: set<PeerId>, calls: seq<Call>, called: nat, stopped: bool, near: PeerId -> bool,
                          bucketSize: nat)
      reads this`peerStates
    {
      && AskedSoFar(calls, called, stopped, |Live(peerStates)|, bucketSize)
      && peerStates.Keys == sent + NearAtCalls(calls[..called], near)
    }

    method AskNext(ghost sent: set<PeerId>, calls: seq<Call>, called: nat, near: PeerId -> bool, bucketSize: nat,
                   ghost others0: nat, ghost states: seq<State>, ghost events: seq<Event>)
      returns (stop: bool, ghost states': seq<State>, ghost events': seq<Event>)
      requires Ready() && phase == Walking && Follows(others0, states, events)
      requires called < |calls| && Asked(sent, calls, called, false, near, bucketSize)
      modifies this`peerStates, this`flying, this`issued, this`sending, this`buffered, this`received, this`waiting,
               this`releasing, this`counting, this`pool, this`putProvDone, this`closed, this`closes, this`others
      ensures Follows(others0, states', events') && Asked(sent, calls, called + 1, stop, near, bucketSize)
    {
      ghost var keys, live := peerStates.Keys, |Live(peerStates)|;
      stop, states', events' := Ask(calls[called], near, bucketSize, others0, states, events);
      AskedMore(calls, called, live, |Live(peerStates)|, stop, bucketSize);
      SentMore(sent, keys, peerStates.Keys, calls, near, called);
    }

    /** Call the stop function until it asks for an end or is not called any more. It asks for one exactly if
        the nearest peers are near as a set, or enough records have been sent and have not failed. */
    method AskToStop(calls: seq<Call>, near: PeerId -> bool, bucketSize: nat,
                     ghost others0: nat, ghost states: seq<State>, ghost events: seq<Event>)
      returns (called: nat, stopped: bool, ghost states': seq<State>, ghost events': seq<Event>)
      requires Ready() && phase == Walking && Follows(others0, states, events)
      modifies this`peerStates, this`flying, this`issued, this`sending, this`buffered, this`received, this`waiting,
               this`releasing, this`counting, this`pool, this`putProvDone, this`closed, this`closes, this`others
      ensures Follows(others0, states', events')
      ensures Called(calls, called, stopped) && Asked(old(peerStates.Keys), calls, called, stopped, near, bucketSize)
      ensures Live(peerStates) == peerStates.Keys - Failed(events')
    {
      called, stopped, states', events' := AskOn(peerStates.Keys, calls, 0, near, bucketSize, others0, states, events);
      LiveIsNotFailed(c, others0, states', events');
    }

    /** The calls that come after the first i. */
    method AskOn(ghost sent: set<PeerId>, calls: seq<Call>, i: nat, near: PeerId -> bool, bucketSize: nat,
                 ghost others0: nat, ghost states: seq<State>, ghost events: seq<Event>)
      returns (called: nat, stopped: bool, ghost states': seq<State>, ghost events': seq<Event>)
      requires Ready() && phase == Walking && Follows(others0, states, events)
      requires Asked(sent, calls, i, false, near, bucketSize)
      modifies this`peerStates, this`flying, this`issued, this`sending, this`buffered, this`received, this`waiting,
               this`releasing, this`counting, this`pool, this`putProvDone, this`closed, this`closes, this`others
      ensures Follows(others0, states', events')
      ensures Called(calls, called, stopped) && Asked(sent, calls, called, stopped, near, bucketSize)
      decreases |calls| - i
    {
      if i == |calls| {
        return i, false, states, events;
      }
      stopped, states', events' := AskNext(sent, calls, i, near, bucketSize, others0, states, events);
      if stopped {
        return i + 1, true, states', events';
      }
      called, stopped, states', events' := AskOn(sent, calls, i + 1, near, bucketSize, others0, states', events');
    }

    method EndLookup(result: seq<PeerId>, ghost others0: nat, ghost states: seq<State>, ghost events: seq<Event>)
      returns (ghost states': seq<State>, ghost events': seq<Event>)
      requires Ready() && phase == Walking && Follows(others0, states, events)
      modifies this`peerStates, this`flying, this`issued, this`returnThreshold, this`rpcCount, this`phase
      ensures Ready() && phase == Collecting && Follows(others0, states', events')
      ensures peerStates.Keys == old(peerStates.Keys) + Elements(result)
    {
      ghost var s := View();
      FinishSends(c, s, result);
      ExtendRun(c, others0, states, events, Finish(result));
      FinishScheduling(result);
      states', events' := states + [View()], events + [Finish(result)];
    }
  }

  /** When the goroutine starts to deal with the rest, exactly the threshold has been counted. */
  lemma NoneCountedMore(c: Config, others0: nat, states: seq<State>, events: seq<Event>)
    requires IsRun(c, others0, states, events) && states[|events|].phase == Dispatching(0)
    ensures states[|events|].done == states[|events|].threshold <= states[|events|].rpcCount
  {
    RunKeepsInv(c, others0, states, events);
  }

  lemma WorkOfRun(c: Config, others0: nat, states: seq<State>, events: seq<Event>)
    requires IsRun(c, others0, states, events) && states[|events|].phase != Walking
    ensures Inv(c, states[|events|]) && 0 <= Work(states[|events|])
  {
    RunKeepsInv(c, others0, states, events);
    WorkNonnegative(c, states[|events|]);
  }

  /** What the providing goroutine's own steps do to the work and to the peers. */
  lemma OwnFrame(c: Config, s: State, e: Event)
    requires c.capacity > 0 && Inv(c, s) && s.phase != Walking && Enabled(c, s, e)
    requires e == Receive || e == Count
    ensures Next(c, s, e).states == s.states
    ensures 0 <= Work(Next(c, s, e)) < Work(s)
  {
    WorkShrinks(c, s, e);
  }
}
