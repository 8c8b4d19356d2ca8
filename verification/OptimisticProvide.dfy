/** The completion protocol of an optimistic provide: peers are sent a provider record while
    the lookup still runs, control returns once enough of the sends have completed, and the
    remaining completions are consumed in the background under leases of a shared pool. Every
    goroutine involved is interleaved step by step. */
module OptimisticProvide {
  import opened Base

  datatype RpcState = Scheduled | Success | Failure

  /** Where the providing goroutine is. Counting and Adding hold a completion that has been
      received but not yet counted; the argument of the dispatch phases is the loop index. */
  datatype Phase = Walking | Collecting | Counting | Dispatching(i: nat) | Adding(i: nat) | Returned

  /** The capacity of the completion channel, which is also the number of completions wanted
      before returning, and the capacity of the lease pool. */
  datatype Config = Config(capacity: nat, poolSize: nat)

  /** flying: sends under way; sending: finished ones whose completion is not in the channel
      yet; waiting, releasing, counting: consumers before their receive, before they give
      their lease back, and before they count; others: leases of other provides. */
  datatype State = State(
    phase: Phase,
    states: map<PeerId, RpcState>,
    issued: seq<PeerId>,
    flying: set<PeerId>,
    sending: set<PeerId>,
    buffered: nat,
    received: nat,
    done: nat,
    threshold: nat,
    rpcCount: nat,
    waiting: nat,
    releasing: nat,
    counting: nat,
    pool: nat,
    others: nat,
    closed: bool,
    closes: nat,
    crashed: bool)

  function Init(others: nat): State {
    State(Walking, map[], [], {}, {}, 0, 0, 0, 0, 0, 0, 0, 0, others, others, false, 0, false)
  }

  datatype Event =
    | Schedule(p: PeerId)            // the stop function finds a near peer
    | Finish(peers: seq<PeerId>)     // the lookup ended with these peers
    | RpcReturns(p: PeerId, ok: bool)
    | Send(p: PeerId)
    | Receive                        // the providing goroutine receives a completion
    | Count                          // ... and counts it
    | Lease                          // ... or hands one over to a consumer
    | Return
    | ConsumerReceives
    | ConsumerReleases
    | ConsumerCounts
    | OtherAcquires
    | OtherReleases

  /** The peers of a lookup result that were not scheduled yet, each once. */
  function Missing(states: map<PeerId, RpcState>, peers: seq<PeerId>): seq<PeerId> {
    if peers == [] then []
    else
      var n := |peers| - 1;
      var front := Missing(states, peers[..n]);
      if peers[n] in states || peers[n] in front then front else front + [peers[n]]
  }

  function ScheduleAll(s: State, ps: seq<PeerId>): State {
    s.(states := s.states + map p | p in ps :: Scheduled,
       issued := s.issued + ps,
       flying := s.flying + Elements(ps))
  }

  predicate Enabled(c: Config, s: State, e: Event) {
    match e
    case Schedule(p) => s.phase == Walking && p !in s.states
    case Finish(_) => s.phase == Walking
    case RpcReturns(p, _) => p in s.flying
    case Send(p) => p in s.sending && (s.closed || s.buffered < c.capacity)
    case Receive =>
      && (s.phase == Collecting || (s.phase.Dispatching? && s.phase.i < s.rpcCount - s.threshold))
      && (s.closed || s.buffered > 0)
    case Count => s.phase == Counting || s.phase.Adding?
    case Lease => s.phase.Dispatching? && s.phase.i < s.rpcCount - s.threshold && s.pool < c.poolSize
    case Return => s.phase.Dispatching? && s.phase.i >= s.rpcCount - s.threshold
    case ConsumerReceives => s.waiting > 0 && (s.closed || s.buffered > 0)
    case ConsumerReleases => s.releasing > 0 && s.pool > 0
    case ConsumerCounts => s.counting > 0
    case OtherAcquires => s.pool < c.poolSize
    case OtherReleases => s.others > 0 && s.pool > 0
  }

  /** Take a completion out of the channel; a receive that only succeeds because the channel
      is closed is a protocol failure. */
  function TakeOne(s: State): State {
    if s.buffered == 0 then s.(crashed := true)
    else s.(buffered := s.buffered - 1, received := s.received + 1)
  }

  /** Count a completion, and close the channel on the last of all. Closing it twice panics. */
  function CountLast(s: State): State {
    var t := s.(done := s.done + 1);
    if t.done != t.rpcCount then t
    else if t.closed then t.(crashed := true)
    else t.(closed := true, closes := t.closes + 1)
  }

  function Next(c: Config, s: State, e: Event): State
    requires Enabled(c, s, e)
  {
    match e
    case Schedule(p) => ScheduleAll(s, [p])
    case Finish(peers) =>
      var t := ScheduleAll(s, Missing(s.states, peers));
      var n := |t.states|;
      t.(phase := Collecting, rpcCount := n, threshold := if c.capacity > n then n else c.capacity)
    case RpcReturns(p, ok) =>
      s.(states := s.states[p := if ok then Success else Failure], flying := s.flying - {p}, sending := s.sending + {p})
    case Send(p) =>
      if s.closed then s.(crashed := true)
      else s.(sending := s.sending - {p}, buffered := s.buffered + 1)
    case Receive =>
      TakeOne(s).(phase := if s.phase == Collecting then Counting else Adding(s.phase.i))
    case Count =>
      if s.phase == Counting then
        s.(done := s.done + 1, phase := if s.done + 1 == s.threshold then Dispatching(0) else Collecting)
      else CountLast(s).(phase := Dispatching(s.phase.i + 1))
    case Lease => s.(pool := s.pool + 1, waiting := s.waiting + 1, phase := Dispatching(s.phase.i + 1))
    case Return => s.(phase := Returned)
    case ConsumerReceives =>
      var t := TakeOne(s);
      t.(waiting := t.waiting - 1, releasing := t.releasing + 1)
    case ConsumerReleases => s.(pool := s.pool - 1, releasing := s.releasing - 1, counting := s.counting + 1)
    case ConsumerCounts => CountLast(s.(counting := s.counting - 1))
    case OtherAcquires => s.(pool := s.pool + 1, others := s.others + 1)
    case OtherReleases => s.(pool := s.pool - 1, others := s.others - 1)
  }

  predicate Step(c: Config, s: State, e: Event, t: State) {
    Enabled(c, s, e) && t == Next(c, s, e)
  }

  ghost predicate IsRun(c: Config, others: nat, states: seq<State>, events: seq<Event>) {
    && others <= c.poolSize && c.capacity > 0
    && |states| == |events| + 1
    && states[0] == Init(others)
    && forall i | 0 <= i < |events| :: Step(c, states[i], events[i], states[i + 1])
  }

  // ---------- The invariant ----------

  /** One send per peer; each is under way, about to report, in the channel, or received. */
  ghost predicate SendsAccounted(c: Config, s: State) {
    && NoDuplicates(s.issued)
    && Elements(s.issued) == s.states.Keys
    && s.flying <= s.states.Keys && s.sending <= s.states.Keys && s.flying !! s.sending
    && (forall p | p in s.states :: s.states[p] == Scheduled <==> p in s.flying)
    && |s.flying| + |s.sending| + s.buffered + s.received == |s.states|
    && s.buffered <= c.capacity
  }

  function Consumers(s: State): nat {
    s.waiting + s.releasing + s.counting
  }

  /** How far the dispatch loop is. */
  function Dispatched(s: State): int {
    match s.phase
    case Dispatching(i) => i
    case Adding(i) => i
    case Returned => s.rpcCount - s.threshold
    case _ => 0
  }

  /** Whether the providing goroutine holds a completion it has not counted. */
  function Held(s: State): nat {
    if s.phase == Counting || s.phase.Adding? then 1 else 0
  }

  ghost predicate CompletionsAccounted(c: Config, s: State) {
    && s.received == s.done + s.releasing + s.counting + Held(s)
    && (s.phase == Walking ==> s.done == 0)
    && (s.phase != Walking ==>
          && s.rpcCount == |s.states|
          && s.threshold == if c.capacity > s.rpcCount then s.rpcCount else c.capacity)
    && (match s.phase
        case Walking | Collecting | Counting =>
          Consumers(s) == 0 && (s.done < s.threshold || s.done == 0)
          && (s.phase == Counting ==> s.done < s.threshold)
        case Dispatching(i) =>
          i <= s.rpcCount - s.threshold && s.threshold <= s.done && s.threshold + i == s.done + Consumers(s)
        case Adding(i) =>
          i < s.rpcCount - s.threshold && s.threshold <= s.done && s.threshold + i == s.done + Consumers(s)
        case Returned => s.threshold <= s.done && s.rpcCount == s.done + Consumers(s))
  }

  ghost predicate ChannelSound(c: Config, s: State) {
    && !s.crashed
    && s.pool == s.others + s.waiting + s.releasing
    && s.pool <= c.poolSize
    && (s.closed <==> s.phase != Walking && s.done == s.rpcCount && s.rpcCount > s.threshold)
    && s.closes == if s.closed then 1 else 0
  }

  ghost predicate Inv(c: Config, s: State) {
    SendsAccounted(c, s) && CompletionsAccounted(c, s) && ChannelSound(c, s)
  }

  lemma {:induction false} MissingIsNew(states: map<PeerId, RpcState>, peers: seq<PeerId>)
    ensures NoDuplicates(Missing(states, peers))
    ensures Elements(Missing(states, peers)) == Elements(peers) - states.Keys
  {
    if peers != [] {
      var n := |peers| - 1;
      MissingIsNew(states, peers[..n]);
      ElementsPrefix(peers, n);
      assert peers[..n + 1] == peers;
      ElementsAppend(Missing(states, peers[..n]), peers[n]);
    }
  }

  lemma IssuedGrows(issued: seq<PeerId>, ps: seq<PeerId>)
    requires NoDuplicates(issued) && NoDuplicates(ps) && Elements(ps) !! Elements(issued)
    ensures NoDuplicates(issued + ps) && Elements(issued + ps) == Elements(issued) + Elements(ps)
  {
    assert forall i | 0 <= i < |issued| :: issued[i] in Elements(issued);
    assert forall i | 0 <= i < |ps| :: ps[i] in Elements(ps);
  }

  lemma ScheduleKeeps(c: Config, s: State, ps: seq<PeerId>)
    requires SendsAccounted(c, s) && NoDuplicates(ps) && Elements(ps) !! s.states.Keys
    ensures SendsAccounted(c, ScheduleAll(s, ps))
    ensures ScheduleAll(s, ps).states.Keys == s.states.Keys + Elements(ps)
  {
    var t := ScheduleAll(s, ps);
    var added := Elements(ps);
    IssuedGrows(s.issued, ps);
    assert t.states.Keys == s.states.Keys + added;
    assert |added| == |ps| by {
      NoDuplicatesCardinality(ps);
    }
    assert |s.states.Keys + added| == |s.states.Keys| + |added|;
    assert |s.flying + added| == |s.flying| + |added|;
  }

  lemma ScheduleOneKeeps(c: Config, s: State, p: PeerId)
    requires Inv(c, s) && Enabled(c, s, Schedule(p))
    ensures Inv(c, Next(c, s, Schedule(p)))
  {
    assert SendsAccounted(c, ScheduleAll(s, [p])) by {
      ScheduleKeeps(c, s, [p]);
    }
  }

  lemma FinishKeeps(c: Config, s: State, peers: seq<PeerId>)
    requires c.capacity > 0 && Inv(c, s) && Enabled(c, s, Finish(peers))
    ensures Inv(c, Next(c, s, Finish(peers)))
  {
    var missing := Missing(s.states, peers);
    assert SendsAccounted(c, ScheduleAll(s, missing)) by {
      MissingIsNew(s.states, peers);
      ScheduleKeeps(c, s, missing);
    }
    StartKeeps(c, ScheduleAll(s, missing), Next(c, s, Finish(peers)));
  }

  /** Once all records are on their way, the waiting begins. */
  lemma StartKeeps(c: Config, s: State, t: State)
    requires c.capacity > 0 && Inv(c, s) && s.phase == Walking
    requires var n := |s.states|;
             t == s.(phase := Collecting, rpcCount := n, threshold := if c.capacity > n then n else c.capacity)
    ensures Inv(c, t)
  {
  }

  lemma RemoveOne<T>(s: set<T>, x: T)
    requires x in s
    ensures |s - {x}| == |s| - 1
  {
  }

  lemma RpcKeeps(c: Config, s: State, e: Event)
    requires Inv(c, s) && Enabled(c, s, e) && (e.RpcReturns? || e.Send?)
    ensures Inv(c, Next(c, s, e))
  {
    var t := Next(c, s, e);
    assert t.states.Keys == s.states.Keys;
    if e.RpcReturns? {
      RemoveOne(s.flying, e.p);
      assert |t.sending| == |s.sending| + 1;
    } else {
      RemoveOne(s.sending, e.p);
    }
  }

  /** No completion is received after the channel is closed. */
  lemma ReceiverFindsOne(c: Config, s: State)
    requires Inv(c, s) && (s.closed || s.buffered > 0)
    requires s.waiting > 0 || s.phase == Collecting || (s.phase.Dispatching? && s.phase.i < s.rpcCount - s.threshold)
    ensures !s.closed && s.buffered > 0
  {
  }

  lemma ReceiveKeeps(c: Config, s: State, e: Event)
    requires Inv(c, s) && Enabled(c, s, e) && (e.Receive? || e.ConsumerReceives?)
    ensures Inv(c, Next(c, s, e))
  {
    ReceiverFindsOne(c, s);
  }

  lemma CountKeeps(c: Config, s: State)
    requires Inv(c, s) && Enabled(c, s, Count)
    ensures Inv(c, Next(c, s, Count))
  {
  }

  lemma ConsumerCountKeeps(c: Config, s: State)
    requires Inv(c, s) && Enabled(c, s, ConsumerCounts)
    ensures Inv(c, Next(c, s, ConsumerCounts))
  {
  }

  lemma LeaseKeeps(c: Config, s: State)
    requires Inv(c, s) && Enabled(c, s, Lease)
    ensures Inv(c, Next(c, s, Lease))
  {
  }

  lemma ReturnKeeps(c: Config, s: State)
    requires Inv(c, s) && Enabled(c, s, Return)
    ensures Inv(c, Next(c, s, Return))
  {
  }

  lemma ReleasesKeep(c: Config, s: State, e: Event)
    requires Inv(c, s) && Enabled(c, s, e) && (e.ConsumerReleases? || e.OtherAcquires? || e.OtherReleases?)
    ensures Inv(c, Next(c, s, e))
  {
  }

  lemma NextKeepsInv(c: Config, s: State, e: Event)
    requires c.capacity > 0 && Inv(c, s) && Enabled(c, s, e)
    ensures Inv(c, Next(c, s, e))
  {
    if e.Schedule? {
      ScheduleOneKeeps(c, s, e.p);
    } else if e.Finish? {
      FinishKeeps(c, s, e.peers);
    } else if e.RpcReturns? || e.Send? {
      RpcKeeps(c, s, e);
    } else if e.Receive? || e.ConsumerReceives? {
      ReceiveKeeps(c, s, e);
    } else if e.Count? {
      CountKeeps(c, s);
    } else if e.ConsumerCounts? {
      ConsumerCountKeeps(c, s);
    } else if e.Lease? {
      LeaseKeeps(c, s);
    } else if e.Return? {
      ReturnKeeps(c, s);
    } else {
      ReleasesKeep(c, s, e);
    }
  }

  lemma {:induction false} RunKeepsInv(c: Config, others: nat, states: seq<State>, events: seq<Event>)
    requires IsRun(c, others, states, events)
    ensures forall i | 0 <= i < |states| :: Inv(c, states[i])
  {
    if events != [] {
      var n := |events| - 1;
      RunPrefix(c, others, states, events);
      RunKeepsInv(c, others, states[..n + 1], events[..n]);
      assert states[n] == states[..n + 1][n];
      assert Step(c, states[n], events[n], states[n + 1]);
      NextKeepsInv(c, states[n], events[n]);
      assert forall i | 0 <= i <= n :: states[i] == states[..n + 1][i];
    }
  }

  lemma RunPrefix(c: Config, others: nat, states: seq<State>, events: seq<Event>)
    requires IsRun(c, others, states, events) && events != []
    ensures IsRun(c, others, states[..|events|], events[..|events| - 1])
  {
  }

  // ---------- What every run guarantees ----------

  /** Each peer is sent at most one record. Nothing is sent or received on a closed channel, and
      the channel is not closed twice: it is closed exactly when all sends have been counted and
      there were more of them than the goroutine waited for. Control is given back only after
      enough completions. The leases held are exactly those of the consumers that have not given
      theirs back, and of other provides. */
  lemma ProtocolSafety(c: Config, others: nat, states: seq<State>, events: seq<Event>, i: nat)
    requires IsRun(c, others, states, events) && i < |states|
    ensures NoDuplicates(states[i].issued)
    ensures !states[i].crashed && states[i].closes <= 1
    ensures states[i].phase != Walking ==>
              && states[i].done <= states[i].received <= states[i].rpcCount == |states[i].issued|
              && states[i].threshold == (if c.capacity > states[i].rpcCount then states[i].rpcCount else c.capacity)
              && (states[i].closed <==>
                    states[i].done == states[i].rpcCount && states[i].rpcCount > states[i].threshold)
    ensures states[i].phase.Dispatching? || states[i].phase == Returned ==> states[i].done >= states[i].threshold
    ensures states[i].pool == states[i].others + states[i].waiting + states[i].releasing
  {
    RunKeepsInv(c, others, states, events);
    NoDuplicatesCardinality(states[i].issued);
  }

  /** Once the lookup has ended, every peer of its result has been sent a record. */
  lemma EveryPeerIsSent(c: Config, s: State, peers: seq<PeerId>)
    requires Inv(c, s) && Enabled(c, s, Finish(peers))
    ensures Elements(peers) <= Elements(Next(c, s, Finish(peers)).issued)
  {
    MissingIsNew(s.states, peers);
    ScheduleKeeps(c, s, Missing(s.states, peers));
  }

  /** The steps of this provide itself, once its lookup has ended. */
  predicate Internal(e: Event) {
    !e.Schedule? && !e.Finish? && !e.OtherAcquires? && !e.OtherReleases?
  }

  /** All is over: the caller has control back and no goroutine of this provide is left. */
  predicate Over(s: State) {
    s.phase == Returned && s.flying == {} && s.sending == {} && Consumers(s) == 0
  }

  /** As long as a provide that sent at least one record is not over, one of its own goroutines
      can take a step: there is no deadlock, whatever leases the others hold. */
  lemma NeverStuck(c: Config, s: State) returns (e: Event)
    requires c.capacity > 0 && Inv(c, s) && s.phase != Walking && s.states != map[] && !Over(s)
    ensures Internal(e) && Enabled(c, s, e)
  {
    if s.flying != {} {
      var p :| p in s.flying;
      e := RpcReturns(p, true);
    } else if Held(s) > 0 {
      e := Count;
    } else if s.counting > 0 {
      e := ConsumerCounts;
    } else if s.releasing > 0 {
      e := ConsumerReleases;
    } else if s.buffered > 0 && s.waiting > 0 {
      e := ConsumerReceives;
    } else if s.phase.Dispatching? && s.phase.i >= s.rpcCount - s.threshold {
      e := Return;
    } else if s.sending != {} && s.buffered < c.capacity {
      var p :| p in s.sending;
      e := Send(p);
    } else {
      assert s.rpcCount > 0 && s.threshold > 0;
      assert s.buffered > 0;
      e := Receive;
    }
  }

  /** With no record sent only other provides can take steps, and they leave the goroutine where it is. */
  lemma OnlyOthersMove(c: Config, s: State, e: Event)
    requires c.capacity > 0 && Inv(c, s) && s.phase == Collecting && s.states == map[]
    requires Enabled(c, s, e)
    ensures !Internal(e)
    ensures Next(c, s, e).phase == Collecting && Next(c, s, e).states == map[]
  {
  }

  /** Without a record sent the goroutine does not get past its first wait. */
  ghost predicate WaitsUnlessSent(s: State) {
    s.states == map[] ==> s.phase == Walking || s.phase == Collecting
  }

  lemma StepWaitsUnlessSent(c: Config, s: State, e: Event, t: State)
    requires c.capacity > 0 && Inv(c, s) && Step(c, s, e, t) && WaitsUnlessSent(s)
    ensures WaitsUnlessSent(t)
  {
    if e.RpcReturns? {
      assert e.p in t.states;
    }
  }

  lemma {:induction false} RunWaitsUnlessSent(c: Config, others: nat, states: seq<State>, events: seq<Event>, i: nat)
    requires IsRun(c, others, states, events) && i < |states|
    ensures WaitsUnlessSent(states[i])
  {
    if i > 0 {
      RunWaitsUnlessSent(c, others, states, events, i - 1);
      RunKeepsInv(c, others, states, events);
      assert Step(c, states[i - 1], events[i - 1], states[i]);
      StepWaitsUnlessSent(c, states[i - 1], events[i - 1], states[i]);
    }
  }

  predicate HangsIn(s: State) {
    s.phase == Collecting && s.states == map[]
  }

  lemma RunInv(c: Config, others: nat, states: seq<State>, events: seq<Event>, i: nat)
    requires IsRun(c, others, states, events) && i < |states|
    ensures Inv(c, states[i])
  {
    RunKeepsInv(c, others, states, events);
  }

  lemma StepHangs(c: Config, others: nat, states: seq<State>, events: seq<Event>, i: nat)
    requires IsRun(c, others, states, events) && 0 < i < |states| && HangsIn(states[i - 1])
    ensures HangsIn(states[i])
  {
    assert Step(c, states[i - 1], events[i - 1], states[i]);
    RunInv(c, others, states, events, i - 1);
    OnlyOthersMove(c, states[i - 1], events[i - 1]);
  }

  /** Once the lookup is over, a provide that has sent no record waits forever, whatever other provides do. */
  lemma {:induction false} NothingSentHangs(
      c: Config, others: nat, states: seq<State>, events: seq<Event>, i: nat, j: nat)
    requires IsRun(c, others, states, events) && i <= j < |states|
    requires states[i].phase != Walking && states[i].states == map[]
    ensures HangsIn(states[j])
    decreases j
  {
    if i < j {
      NothingSentHangs(c, others, states, events, i, j - 1);
      StepHangs(c, others, states, events, j);
    } else {
      RunWaitsUnlessSent(c, others, states, events, i);
    }
  }

  /** A run whose lookup has ended and in which no goroutine of the provide can go on. */
  ghost predicate IsMaximal(c: Config, others: nat, states: seq<State>, events: seq<Event>) {
    && IsRun(c, others, states, events)
    && states[|events|].phase != Walking
    && forall e | Internal(e) :: !Enabled(c, states[|events|], e)
  }

  lemma MaximalIf(c: Config, others: nat, states: seq<State>, events: seq<Event>)
    requires IsRun(c, others, states, events)
    requires Over(states[|events|]) || (states[|events|].phase == Collecting && states[|events|].states == map[])
    ensures IsMaximal(c, others, states, events)
  {
    RunKeepsInv(c, others, states, events);
  }

  /** A provide that can no longer go on has ended exactly if it sent a record. As each of its steps
      leaves less work, every provide whose lookup has ended comes to a point where it cannot go on. */
  lemma EndsIff(c: Config, others: nat, states: seq<State>, events: seq<Event>)
    requires IsMaximal(c, others, states, events)
    ensures Over(states[|events|]) <==> states[|events|].states != map[]
  {
    RunWaitsUnlessSent(c, others, states, events, |events|);
    RunKeepsInv(c, others, states, events);
    var s := states[|events|];
    if s.states != map[] && !Over(s) {
      var e := NeverStuck(c, s);
    }
  }

  /** A provide that sends nothing does occur: its lookup ends with no peer. */
  lemma NothingSentRun(c: Config, others: nat) returns (states: seq<State>, events: seq<Event>)
    requires c.capacity > 0 && others <= c.poolSize
    ensures IsMaximal(c, others, states, events) && events == [Finish([])]
    ensures states[1].states == map[] && !Over(states[1])
  {
    var s := Init(others);
    var t := Next(c, s, Finish([]));
    assert t.states == map[];
    states, events := [s, t], [Finish([])];
    assert Step(c, states[0], events[0], states[1]);
  }

  /** The work left to a provide. */
  function Work(s: State): int {
    5 * |s.flying| + 4 * |s.sending| + 3 * s.buffered + 2 * s.releasing + s.counting
    + Held(s) + (s.rpcCount - s.threshold - Dispatched(s)) + (if s.phase == Returned then 0 else 1)
  }

  lemma WorkNonnegative(c: Config, s: State)
    requires CompletionsAccounted(c, s)
    ensures s.phase != Walking ==> 0 <= Work(s)
  {
  }

  lemma RpcWork(c: Config, s: State, e: Event)
    requires Enabled(c, s, e) && !s.closed && (e.RpcReturns? || e.Send?)
    ensures Work(Next(c, s, e)) == Work(s) - 1 || (e.RpcReturns? && Work(Next(c, s, e)) < Work(s))
  {
  }

  lemma ReceiveWork(c: Config, s: State, e: Event)
    requires Inv(c, s) && Enabled(c, s, e) && (e.Receive? || e.ConsumerReceives?)
    ensures Work(Next(c, s, e)) < Work(s)
  {
    ReceiverFindsOne(c, s);
  }

  lemma CountWork(c: Config, s: State, e: Event)
    requires Inv(c, s) && Enabled(c, s, e) && (e.Count? || e.ConsumerCounts?)
    ensures Work(Next(c, s, e)) < Work(s)
  {
  }

  lemma LeaseWork(c: Config, s: State, e: Event)
    requires Inv(c, s) && Enabled(c, s, e) && (e.Lease? || e.Return? || e.ConsumerReleases?)
    ensures Work(Next(c, s, e)) < Work(s)
  {
  }

  /** Each step of the provide leaves less work, so after finitely many it is over. */
  lemma WorkShrinks(c: Config, s: State, e: Event)
    requires c.capacity > 0 && Inv(c, s) && s.phase != Walking && Internal(e) && Enabled(c, s, e)
    ensures 0 <= Work(Next(c, s, e)) < Work(s)
  {
    NextKeepsInv(c, s, e);
    WorkNonnegative(c, Next(c, s, e));
    if e.RpcReturns? || e.Send? {
      SenderFindsItOpen(c, s);
      RpcWork(c, s, e);
    } else if e.Receive? || e.ConsumerReceives? {
      ReceiveWork(c, s, e);
    } else if e.Count? || e.ConsumerCounts? {
      CountWork(c, s, e);
    } else {
      LeaseWork(c, s, e);
    }
  }

  /** The channel is not closed while a send is under way or unreported. */
  lemma SenderFindsItOpen(c: Config, s: State)
    requires Inv(c, s) && (s.flying != {} || s.sending != {})
    ensures !s.closed
  {
  }

  /** Steps of other provides do not add to the work. */
  lemma WorkIsOwn(c: Config, s: State, e: Event)
    requires (e.OtherAcquires? || e.OtherReleases?) && Enabled(c, s, e)
    ensures Work(Next(c, s, e)) == Work(s) && Next(c, s, e).phase == s.phase
  {
  }

  /** When it is over, each completion has been consumed exactly once, no lease is kept, the
      outcome of every send is known, and the channel is closed exactly if there were more
      sends than the goroutine waited for. */
  lemma OverIsClean(c: Config, s: State)
    requires Inv(c, s) && Over(s)
    ensures s.received == s.done == s.rpcCount == |s.issued| && s.buffered == 0
    ensures s.pool == s.others
    ensures forall p | p in s.issued :: p in s.states && s.states[p] != Scheduled
    ensures s.closed <==> s.rpcCount > s.threshold
  {
    NoDuplicatesCardinality(s.issued);
    assert forall p | p in s.issued :: p in Elements(s.issued);
  }

  // ---------- Giving control back early ----------

  /** The states of a goroutine that leases out all that is left, and returns. */
  ghost predicate LeasesOut(c: Config, states: seq<State>, k: nat) {
    && |states| == k + 2
    && (forall j | 0 <= j < k :: Step(c, states[j], Lease, states[j + 1]))
    && Step(c, states[k], Return, states[k + 1])
  }

  /** If there are leases for all completions that are left, control can be given back without waiting for any
      of them. */
  lemma {:induction false} CanReturnEarly(c: Config, s: State) returns (states: seq<State>, k: nat)
    requires s.phase.Dispatching? && s.phase.i <= s.rpcCount - s.threshold
    requires s.pool + (s.rpcCount - s.threshold - s.phase.i) <= c.poolSize
    ensures k == s.rpcCount - s.threshold - s.phase.i && LeasesOut(c, states, k) && states[0] == s
    ensures states[k + 1].phase == Returned && states[k + 1].received == s.received
    decreases s.rpcCount - s.threshold - s.phase.i
  {
    if s.phase.i == s.rpcCount - s.threshold {
      k := 0;
      states := [s, Next(c, s, Return)];
    } else {
      var t := Next(c, s, Lease);
      var rest, n := CanReturnEarly(c, t);
      k := n + 1;
      states := [s] + rest;
      forall j | 0 <= j < k
        ensures Step(c, states[j], Lease, states[j + 1])
      {
        if j > 0 {
          assert Step(c, rest[j - 1], Lease, rest[j]);
        }
      }
    }
  }

  // ---------- What the recorded states mean ----------

  predicate Records(s: State, p: PeerId, state: RpcState) {
    p in s.states && s.states[p] == state
  }

  /** The event has a record sent to the peer, unless one was before. */
  predicate SendsTo(e: Event, p: PeerId) {
    e == Schedule(p) || (e.Finish? && p in e.peers)
  }

  /** What a step records about a peer. */
  ghost predicate RecordsStep(s: State, e: Event, t: State, p: PeerId) {
    && (p in t.states <==> p in s.states || SendsTo(e, p))
    && (Records(t, p, Success) <==> Records(s, p, Success) || e == RpcReturns(p, true))
    && (Records(t, p, Failure) <==> Records(s, p, Failure) || e == RpcReturns(p, false))
  }

  lemma FinishRecords(c: Config, s: State, peers: seq<PeerId>, p: PeerId)
    requires Enabled(c, s, Finish(peers))
    ensures RecordsStep(s, Finish(peers), Next(c, s, Finish(peers)), p)
  {
    MissingIsNew(s.states, peers);
    assert p in Missing(s.states, peers) <==> p in Elements(Missing(s.states, peers));
  }

  lemma ReturnRecords(c: Config, s: State, q: PeerId, ok: bool, p: PeerId)
    requires Enabled(c, s, RpcReturns(q, ok)) && Records(s, q, Scheduled)
    ensures RecordsStep(s, RpcReturns(q, ok), Next(c, s, RpcReturns(q, ok)), p)
  {
  }

  lemma OthersRecord(c: Config, s: State, e: Event, p: PeerId)
    requires Enabled(c, s, e) && !e.Finish? && !e.RpcReturns?
    ensures RecordsStep(s, e, Next(c, s, e), p)
  {
    if e.Schedule? {
      assert ScheduleAll(s, [e.p]).states == s.states[e.p := Scheduled];
    } else {
      assert Next(c, s, e).states == s.states;
    }
  }

  lemma FlyingIsScheduled(c: Config, s: State, p: PeerId)
    requires SendsAccounted(c, s) && p in s.flying
    ensures Records(s, p, Scheduled)
  {
    assert p in s.states;
  }

  lemma StepRecords(c: Config, others: nat, states: seq<State>, events: seq<Event>, i: nat, p: PeerId)
    requires IsRun(c, others, states, events) && i < |events|
    ensures RecordsStep(states[i], events[i], states[i + 1], p)
  {
    var s, e := states[i], events[i];
    assert Step(c, s, e, states[i + 1]);
    if e.Finish? {
      FinishRecords(c, s, e.peers, p);
    } else if e.RpcReturns? {
      RunInv(c, others, states, events, i);
      FlyingIsScheduled(c, s, e.p);
      ReturnRecords(c, s, e.p, e.ok, p);
    } else {
      OthersRecord(c, s, e, p);
    }
  }

  /** A peer has a record sent to it exactly if the stop function or the lookup's result named it, and success
      or failure is recorded for it exactly if its send returned without or with an error. */
  ghost predicate Tells(s: State, past: seq<Event>, p: PeerId) {
    && (p in s.states <==> exists j | 0 <= j < |past| :: SendsTo(past[j], p))
    && (Records(s, p, Success) <==> RpcReturns(p, true) in past)
    && (Records(s, p, Failure) <==> RpcReturns(p, false) in past)
  }

  lemma TellsMore(s: State, past: seq<Event>, e: Event, t: State, p: PeerId)
    requires Tells(s, past, p) && RecordsStep(s, e, t, p)
    ensures Tells(t, past + [e], p)
  {
    var now := past + [e];
    if SendsTo(e, p) {
      assert SendsTo(now[|past|], p);
    }
    if j :| 0 <= j < |past| && SendsTo(past[j], p) {
      assert SendsTo(now[j], p);
    }
  }

  lemma TellsNext(c: Config, others: nat, states: seq<State>, events: seq<Event>, i: nat, p: PeerId)
    requires IsRun(c, others, states, events) && 0 < i < |states| && Tells(states[i - 1], events[..i - 1], p)
    ensures Tells(states[i], events[..i], p)
  {
    assert RecordsStep(states[i - 1], events[i - 1], states[i], p) by {
      StepRecords(c, others, states, events, i - 1, p);
    }
    TellsMore(states[i - 1], events[..i - 1], events[i - 1], states[i], p);
    assert events[..i] == events[..i - 1] + [events[i - 1]];
  }

  /** That is so in every state of every run. */
  lemma {:induction false} StatesTellOutcomes(
      c: Config, others: nat, states: seq<State>, events: seq<Event>, i: nat, p: PeerId)
    requires IsRun(c, others, states, events) && i < |states|
    ensures Tells(states[i], events[..i], p)
  {
    if i > 0 {
      StatesTellOutcomes(c, others, states, events, i - 1, p);
      TellsNext(c, others, states, events, i, p);
    }
  }

  /** The peers whose send has returned an error. */
  function Failed(events: seq<Event>): set<PeerId> {
    set e | e in events && e.RpcReturns? && !e.ok :: e.p
  }

  lemma FailureIsFailed(c: Config, others: nat, states: seq<State>, events: seq<Event>, p: PeerId)
    requires IsRun(c, others, states, events)
    ensures Records(states[|events|], p, Failure) <==> p in Failed(events)
  {
    StatesTellOutcomes(c, others, states, events, |events|, p);
    assert events[..|events|] == events;
    if p in Failed(events) {
      var e :| e in events && e.RpcReturns? && !e.ok && e.p == p;
      assert e == RpcReturns(p, false);
    }
  }
}
