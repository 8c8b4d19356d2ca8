/** One iterative lookup as a state machine: the loop that owns the peer set, the workers it
    starts, and the channel they report on, in every interleaving.

    An iteration of the loop is one step. It is the only code that touches the peer set, and
    all a worker can do meanwhile is append to the channel, which commutes with the iteration. */
module Lookup {
  import opened Base
  import opened KeySpace
  import opened PeerOrder

  /** What a lookup is given: its target's key space, the local peer, the concurrency alpha,
      the resiliency beta, the bucket size, and the seed peers. */
  datatype Config = Config(space: Space, self: PeerId, alpha: nat, beta: nat, bucketSize: nat, seeds: seq<PeerId>) {
    ghost predicate Valid() {
      space.Valid() && alpha >= 1 && Elements(seeds) <= space.universe
    }
  }

  datatype Update = Update(
    cause: PeerId,
    heard: seq<PeerId>,
    queried: seq<PeerId>,
    unreachable: seq<PeerId>,
    queryDuration: nat)

  function SeedUpdate(c: Config): Update {
    Update(c.self, c.seeds, [], [], 0)
  }

  /** What a worker for peer p may report: a failure, or an answer whose peers exclude the
      local peer. */
  ghost predicate WorkerUpdate(c: Config, p: PeerId, up: Update) {
    && up.cause == p
    && (|| up == Update(p, [], [], [p], 0)
        || (&& up == Update(p, up.heard, [p], [], up.queryDuration)
            && Elements(up.heard) <= c.space.universe - {c.self}))
  }

  /** cancelled says whether the context of the lookup has ended, ctxDone whether that of its caller has;
      terminated is set by the iteration that ends the loop, which cancels the former; handled counts the
      updates received; crashed records a panic. */
  datatype State = State(
    peers: Peers,
    running: set<PeerId>,
    ch: seq<Update>,
    cancelled: bool,
    ctxDone: bool,
    terminated: bool,
    handled: nat,
    crashed: bool)

  function Init(c: Config): State {
    State(map[], {}, [SeedUpdate(c)], false, false, false, 0, false)
  }

  /** Unknown peers become heard; the local peer and known peers are skipped. */
  function AddHeard(m: Peers, self: PeerId, heard: set<PeerId>): Peers {
    m + map p | p in heard && p != self && p !in m :: Heard
  }

  /** Move waiting peers to their final state; None is the panic on any other peer. */
  function Settle(m: Peers, self: PeerId, ps: seq<PeerId>, final: PeerState): Option<Peers> {
    if ps == [] then Some(m)
    else if ps[0] == self then Settle(m, self, ps[1..], final)
    else if ps[0] in m && m[ps[0]] == Waiting then Settle(m[ps[0] := final], self, ps[1..], final)
    else None
  }

  /** The effect of one update on the peer set. */
  function Absorb(m: Peers, self: PeerId, up: Update): Option<Peers> {
    match Settle(AddHeard(m, self, Elements(up.heard)), self, up.queried, Queried)
    case None => None
    case Some(m') => Settle(m', self, up.unreachable, Unreachable)
  }

  /** What an update says, peer by peer: the one that failed is unreachable, the one that answered is queried,
      one only heard of is heard if it was not known, and nothing else changes; the local peer stays out. */
  ghost predicate Updates(m: Peers, m': Peers, self: PeerId, up: Update) {
    && m'.Keys == m.Keys + (Elements(up.heard) - {self})
    && forall p | p in m' ::
         m'[p] == if p != self && p in up.unreachable then Unreachable
                  else if p != self && p in up.queried then Queried
                  else if p in m then m[p] else Heard
  }

  lemma {:induction false} SettleMeans(m: Peers, self: PeerId, ps: seq<PeerId>, final: PeerState)
    requires Settle(m, self, ps, final).Some?
    ensures var m' := Settle(m, self, ps, final).value;
            && m'.Keys == m.Keys
            && (forall p | p in ps && p != self :: p in m)
            && (forall p | p in m :: m'[p] == if p in ps && p != self then final else m[p])
  {
    if ps != [] {
      SettleMeans(if ps[0] == self then m else m[ps[0] := final], self, ps[1..], final);
      assert forall p :: p in ps <==> p == ps[0] || p in ps[1..];
    }
  }

  /** Absorbing an update does what the update says. */
  lemma AbsorbUpdates(m: Peers, self: PeerId, up: Update)
    requires Absorb(m, self, up).Some?
    ensures Updates(m, Absorb(m, self, up).value, self, up)
  {
    var a := AddHeard(m, self, Elements(up.heard));
    SettleMeans(a, self, up.queried, Queried);
    SettleMeans(Settle(a, self, up.queried, Queried).value, self, up.unreachable, Unreachable);
  }

  /** No peer is left to query or to wait for. */
  predicate Starved(m: Peers) {
    Matching(m, {Heard}) == {} && Matching(m, {Waiting}) == {}
  }

  /** The beta nearest peers that are not unreachable have all been queried. */
  ghost predicate BetaQueried(c: Config, m: Peers) {
    forall p | p in ClosestN(c.space, m, c.beta, {Heard, Waiting, Queried}) :: p in m && m[p] == Queried
  }

  function Spawn(m: Peers, ps: set<PeerId>): Peers {
    map p | p in m :: if p in ps then Waiting else m[p]
  }

  /** The second half of an iteration: end the loop, or start workers for the nearest heard
      peers up to the concurrency. A negative budget would make the slice of those peers panic. */
  ghost function Decide(c: Config, s: State, stop: bool): State {
    var waiting := |Matching(s.peers, {Waiting})|;
    if stop || Starved(s.peers) || BetaQueried(c, s.peers) then
      s.(terminated := true, cancelled := true)
    else if waiting > c.alpha then
      s.(crashed := true)
    else if s.terminated then
      s
    else
      var next := Elements(ClosestN(c.space, s.peers, c.alpha - waiting, {Heard}));
      s.(peers := Spawn(s.peers, next), running := s.running + next)
  }

  /** Receive an update: the first half of an iteration. */
  function Receive(c: Config, s: State): State
    requires s.ch != []
  {
    match Absorb(s.peers, c.self, s.ch[0])
    case None => s.(crashed := true)
    case Some(m) => s.(peers := m, ch := s.ch[1..], handled := s.handled + 1)
  }

  /** A worker sends its report; the caller's context ends; an iteration receives an update;
      an iteration sees the cancelled context. stop is what the stop function answers. */
  datatype Event =
    | Report(p: PeerId, up: Update)
    | Cancel
    | Handle(stop: bool)
    | Abandon(stop: bool)

  ghost predicate Enabled(c: Config, s: State, e: Event) {
    match e
    case Report(p, up) => p in s.running && WorkerUpdate(c, p, up) && |s.ch| < c.alpha
    case Cancel => true
    case Handle(_) => !s.terminated && !s.crashed && s.ch != []
    case Abandon(_) => !s.terminated && !s.crashed && s.cancelled
  }

  ghost function Next(c: Config, s: State, e: Event): State
    requires Enabled(c, s, e)
  {
    match e
    case Report(p, up) => s.(running := s.running - {p}, ch := s.ch + [up])
    case Cancel => s.(cancelled := true, ctxDone := true)
    case Handle(stop) =>
      var s' := Receive(c, s);
      if s'.crashed then s' else Decide(c, s', stop)
    case Abandon(stop) => Decide(c, s.(terminated := true, cancelled := true), stop)
  }

  /** A run: the states passed through, and the events between them. */
  ghost predicate IsRun(c: Config, states: seq<State>, events: seq<Event>) {
    && |states| == |events| + 1
    && states[0] == Init(c)
    && forall i | 0 <= i < |events| :: Step(c, states[i], events[i], states[i + 1])
  }

  ghost predicate Step(c: Config, s: State, e: Event, t: State) {
    Enabled(c, s, e) && t == Next(c, s, e)
  }

  // ---------- The invariant ----------

  ghost function Causes(ch: seq<Update>): set<PeerId> {
    set i | 0 <= i < |ch| :: ch[i].cause
  }

  ghost predicate UniqueCauses(ch: seq<Update>) {
    forall i, j | 0 <= i < j < |ch| :: ch[i].cause != ch[j].cause
  }

  /** The waiting peers are exactly those with a running worker or an unread report. */
  ghost predicate WorkersMatch(c: Config, s: State) {
    && UniqueCauses(s.ch)
    && (forall i | 0 <= i < |s.ch| :: WorkerUpdate(c, s.ch[i].cause, s.ch[i]))
    && s.running !! Causes(s.ch)
    && s.running + Causes(s.ch) == Matching(s.peers, {Waiting})
  }

  ghost predicate Consistent(c: Config, s: State) {
    && !s.crashed
    && s.peers.Keys <= c.space.universe - {c.self}
    && |Matching(s.peers, {Waiting})| <= c.alpha
    && (if s.handled == 0 then s == Init(c).(cancelled := s.cancelled, ctxDone := s.ctxDone, terminated := s.terminated)
        else WorkersMatch(c, s) && s.handled == 1 + |Matching(s.peers, {Queried, Unreachable})|)
  }

  ghost predicate Inv(c: Config, s: State) {
    && Consistent(c, s)
    && (!s.terminated && s.handled > 0 ==> Matching(s.peers, {Waiting}) != {})
    && (s.cancelled <==> s.ctxDone || s.terminated)
  }

  lemma {:induction false} CausesCount(ch: seq<Update>)
    requires UniqueCauses(ch)
    ensures |Causes(ch)| == |ch|
  {
    if ch != [] {
      var n := |ch| - 1;
      CausesCount(ch[..n]);
      CausesAppend(ch[..n], ch[n]);
      assert ch == ch[..n] + [ch[n]];
      assert ch[n].cause !in Causes(ch[..n]);
    }
  }

  lemma CausesAppend(ch: seq<Update>, up: Update)
    ensures Causes(ch + [up]) == Causes(ch) + {up.cause}
  {
    forall p | p in Causes(ch) + {up.cause}
      ensures p in Causes(ch + [up])
    {
      if p == up.cause {
        assert (ch + [up])[|ch|].cause == p;
      } else {
        var i :| 0 <= i < |ch| && ch[i].cause == p;
        assert (ch + [up])[i].cause == p;
      }
    }
  }

  /** In a consistent state a send to the channel always finds room. */
  lemma RoomToSend(c: Config, s: State)
    requires c.Valid() && Consistent(c, s)
    ensures |s.running| + |s.ch| <= c.alpha
    ensures s.running != {} ==> |s.ch| < c.alpha
  {
    if s.handled > 0 {
      CausesCount(s.ch);
    }
  }

  lemma InitInv(c: Config)
    requires c.Valid()
    ensures Inv(c, Init(c))
  {
  }

  lemma UniqueAppend(ch: seq<Update>, up: Update)
    requires UniqueCauses(ch) && up.cause !in Causes(ch)
    ensures UniqueCauses(ch + [up])
  {
  }

  lemma ReportedMatches(c: Config, s: State, p: PeerId, up: Update)
    requires WorkersMatch(c, s) && p in s.running && WorkerUpdate(c, p, up)
    ensures WorkersMatch(c, s.(running := s.running - {p}, ch := s.ch + [up]))
  {
    CausesAppend(s.ch, up);
    UniqueAppend(s.ch, up);
    assert (s.running - {p}) + (Causes(s.ch) + {p}) == s.running + Causes(s.ch);
  }

  lemma ReportKeeps(c: Config, s: State, p: PeerId, up: Update)
    requires c.Valid() && Inv(c, s) && Enabled(c, s, Report(p, up))
    ensures Inv(c, Next(c, s, Report(p, up)))
  {
    ReportedMatches(c, s, p, up);
  }

  /** The update of a worker, absorbed. */
  function Absorbed(m: Peers, self: PeerId, up: Update): Peers {
    AddHeard(m, self, Elements(up.heard))[up.cause := if up.queried == [] then Unreachable else Queried]
  }

  /** A report about a waiting peer is absorbed without a panic. */
  lemma AbsorbWorker(c: Config, m: Peers, up: Update)
    requires WorkerUpdate(c, up.cause, up)
    requires up.cause in m && m[up.cause] == Waiting && up.cause != c.self
    ensures Absorb(m, c.self, up) == Some(Absorbed(m, c.self, up))
  {
    var a := AddHeard(m, c.self, Elements(up.heard));
    assert up.cause in a && a[up.cause] == Waiting;
    if up.queried == [] {
      assert Settle(a, c.self, [up.cause], Unreachable) == Settle(a[up.cause := Unreachable], c.self, [], Unreachable);
    } else {
      assert Settle(a, c.self, [up.cause], Queried) == Settle(a[up.cause := Queried], c.self, [], Queried);
    }
  }

  lemma ReceiveSeeds(c: Config, s: State)
    requires c.Valid() && Consistent(c, s) && s.handled == 0
    ensures Consistent(c, Receive(c, s)) && Receive(c, s).handled == 1
  {
  }

  /** Absorbing a report moves its sender, and nobody else, out of the waiting peers. */
  lemma AbsorbedMatching(c: Config, m: Peers, up: Update)
    requires up.cause in m && m[up.cause] == Waiting
    ensures var t := Absorbed(m, c.self, up);
            && Matching(t, {Waiting}) == Matching(m, {Waiting}) - {up.cause}
            && Matching(t, {Queried, Unreachable}) == Matching(m, {Queried, Unreachable}) + {up.cause}
            && t.Keys == m.Keys + (Elements(up.heard) - {c.self})
  {
  }

  lemma HeadIsWaiting(c: Config, s: State)
    requires Consistent(c, s) && s.handled > 0 && s.ch != []
    ensures s.ch[0].cause in Matching(s.peers, {Waiting})
    ensures WorkerUpdate(c, s.ch[0].cause, s.ch[0])
  {
  }

  function Received(c: Config, s: State): State
    requires s.ch != []
  {
    s.(peers := Absorbed(s.peers, c.self, s.ch[0]), ch := s.ch[1..], handled := s.handled + 1)
  }

  lemma ReceivedMatches(c: Config, s: State)
    requires WorkersMatch(c, s) && s.ch != []
    ensures WorkersMatch(c, Received(c, s))
  {
  }

  lemma ReceivedKeeps(c: Config, s: State)
    requires c.Valid() && Consistent(c, s) && s.handled > 0 && s.ch != []
    ensures Consistent(c, Received(c, s))
  {
    HeadIsWaiting(c, s);
    ReceivedMatches(c, s);
    AbsorbedMatching(c, s.peers, s.ch[0]);
  }

  lemma ReceiveReport(c: Config, s: State)
    requires c.Valid() && Consistent(c, s) && s.handled > 0 && s.ch != []
    ensures Receive(c, s) == Received(c, s)
    ensures Consistent(c, Receive(c, s))
  {
    assert Receive(c, s) == Received(c, s) by {
      HeadIsWaiting(c, s);
      AbsorbWorker(c, s.peers, s.ch[0]);
    }
    ReceivedKeeps(c, s);
  }

  lemma ReceiveKeeps(c: Config, s: State)
    requires c.Valid() && Consistent(c, s) && s.ch != []
    ensures Consistent(c, Receive(c, s)) && Receive(c, s).handled == s.handled + 1
    ensures Receive(c, s).terminated == s.terminated
    ensures Receive(c, s).cancelled == s.cancelled && Receive(c, s).ctxDone == s.ctxDone
  {
    if s.handled == 0 {
      ReceiveSeeds(c, s);
    } else {
      ReceiveReport(c, s);
    }
  }

  /** What starting workers does to each class of peers. */
  lemma SpawnMatching(m: Peers, ps: set<PeerId>)
    requires ps <= Matching(m, {Heard})
    ensures Matching(Spawn(m, ps), {Waiting}) == Matching(m, {Waiting}) + ps
    ensures Matching(Spawn(m, ps), {Queried, Unreachable}) == Matching(m, {Queried, Unreachable})
    ensures Matching(m, {Waiting}) !! ps
  {
  }

  lemma SpawnedMatch(c: Config, s: State, ps: set<PeerId>)
    requires WorkersMatch(c, s) && ps <= Matching(s.peers, {Heard})
    ensures WorkersMatch(c, s.(peers := Spawn(s.peers, ps), running := s.running + ps))
  {
  }

  lemma SpawnedFits(m: Peers, ps: set<PeerId>, n: nat)
    requires ps <= Matching(m, {Heard}) && |Matching(m, {Waiting})| + |ps| <= n
    ensures |Matching(Spawn(m, ps), {Waiting})| <= n
    ensures Matching(m, {Waiting}) + ps != {} ==> Matching(Spawn(m, ps), {Waiting}) != {}
  {
    SpawnMatching(m, ps);
    assert |Matching(m, {Waiting}) + ps| == |Matching(m, {Waiting})| + |ps|;
  }

  lemma SpawnedKeeps(c: Config, s: State, ps: set<PeerId>)
    requires Consistent(c, s) && s.handled > 0 && !s.terminated && s.cancelled == s.ctxDone
    requires ps <= Matching(s.peers, {Heard})
    requires |Matching(s.peers, {Waiting})| + |ps| <= c.alpha
    requires Matching(s.peers, {Waiting}) + ps != {}
    ensures Inv(c, s.(peers := Spawn(s.peers, ps), running := s.running + ps))
  {
    SpawnedMatch(c, s, ps);
    SpawnedFits(s.peers, ps, c.alpha);
    assert Matching(Spawn(s.peers, ps), {Queried, Unreachable}) == Matching(s.peers, {Queried, Unreachable}) by {
      SpawnMatching(s.peers, ps);
    }
  }

  /** The peers an iteration starts workers for are heard, fit the budget, and exist unless
      others are being waited for. */
  lemma NextPeers(c: Config, m: Peers, n: nat)
    requires c.Valid() && m.Keys <= c.space.universe
    ensures var next := Elements(ClosestN(c.space, m, n, {Heard}));
            && next <= Matching(m, {Heard})
            && |next| <= n
            && (n > 0 && Matching(m, {Heard}) != {} ==> next != {})
  {
    ClosestNShape(c.space, m, n, {Heard});
  }

  lemma SpawnKeeps(c: Config, s: State)
    requires c.Valid() && Consistent(c, s) && s.handled > 0 && !s.terminated && s.cancelled == s.ctxDone
    requires !Starved(s.peers) && !BetaQueried(c, s.peers)
    ensures Inv(c, Decide(c, s, false))
  {
    var waiting := Matching(s.peers, {Waiting});
    var n := c.alpha - |waiting|;
    var next := Elements(ClosestN(c.space, s.peers, n, {Heard}));
    NextPeers(c, s.peers, n);
    SpawnedKeeps(c, s, next);
  }

  lemma DecideKeeps(c: Config, s: State, stop: bool)
    requires c.Valid() && Consistent(c, s) && (s.handled == 0 ==> s.terminated)
    requires s.cancelled <==> s.ctxDone || s.terminated
    ensures Inv(c, Decide(c, s, stop))
  {
    if !stop && !Starved(s.peers) && !BetaQueried(c, s.peers) && !s.terminated {
      SpawnKeeps(c, s);
    }
  }

  lemma NextKeepsInv(c: Config, s: State, e: Event)
    requires c.Valid() && Inv(c, s) && Enabled(c, s, e)
    ensures Inv(c, Next(c, s, e))
  {
    match e
    case Report(p, up) =>
      ReportKeeps(c, s, p, up);
    case Cancel =>
    case Handle(stop) =>
      ReceiveKeeps(c, s);
      DecideKeeps(c, Receive(c, s), stop);
    case Abandon(stop) =>
      DecideKeeps(c, s.(terminated := true, cancelled := true), stop);
  }

  /** Every state of every run satisfies the invariant. */
  lemma {:induction false} RunKeepsInv(c: Config, states: seq<State>, events: seq<Event>)
    requires c.Valid() && IsRun(c, states, events)
    ensures forall i | 0 <= i < |states| :: Inv(c, states[i])
  {
    if events == [] {
      InitInv(c);
    } else {
      var n := |events| - 1;
      RunPrefix(c, states, events);
      RunKeepsInv(c, states[..n + 1], events[..n]);
      assert states[n] == states[..n + 1][n];
      assert Step(c, states[n], events[n], states[n + 1]);
      NextKeepsInv(c, states[n], events[n]);
      forall i | 0 <= i < |states|
        ensures Inv(c, states[i])
      {
        if i <= n {
          assert states[i] == states[..n + 1][i];
        }
      }
    }
  }

  lemma RunPrefix(c: Config, states: seq<State>, events: seq<Event>)
    requires IsRun(c, states, events) && events != []
    ensures IsRun(c, states[..|events|], events[..|events| - 1])
  {
  }

  // ---------- What every run guarantees ----------

  /** In every reachable state the waiting peers correspond one to one to the running workers
      and the unread reports, none of the panics has happened, and every worker can send
      without blocking, even after the loop has stopped receiving. */
  lemma WorkerCorrespondence(c: Config, states: seq<State>, events: seq<Event>, i: nat)
    requires c.Valid() && IsRun(c, states, events) && i < |states|
    ensures !states[i].crashed
    ensures states[i].handled > 0 ==>
              && Matching(states[i].peers, {Waiting}) == states[i].running + Causes(states[i].ch)
              && states[i].running !! Causes(states[i].ch)
              && |Causes(states[i].ch)| == |states[i].ch|
    ensures |Matching(states[i].peers, {Waiting})| <= c.alpha
    ensures |states[i].running| + |states[i].ch| <= c.alpha
    ensures forall p, up | p in states[i].running && WorkerUpdate(c, p, up) :: Enabled(c, states[i], Report(p, up))
  {
    RunKeepsInv(c, states, events);
    RoomToSend(c, states[i]);
    if states[i].handled > 0 {
      CausesCount(states[i].ch);
    }
  }

  /** Until the loop ends there is always an update to receive or a worker that will send one,
      so the loop never waits for nothing. */
  lemma NeverWaitsForNothing(c: Config, states: seq<State>, events: seq<Event>, i: nat)
    requires c.Valid() && IsRun(c, states, events) && i < |states| && !states[i].terminated
    ensures states[i].running != {} || states[i].ch != []
  {
    RunKeepsInv(c, states, events);
    var s := states[i];
    if s.handled > 0 && s.running == {} {
      var p :| p in Matching(s.peers, {Waiting});
      assert p in Causes(s.ch);
    }
  }

  function CountReceived(events: seq<Event>): nat {
    if events == [] then 0
    else CountReceived(events[..|events| - 1]) + (if events[|events| - 1].Handle? then 1 else 0)
  }

  function CountReported(events: seq<Event>): nat {
    if events == [] then 0
    else CountReported(events[..|events| - 1]) + (if events[|events| - 1].Report? then 1 else 0)
  }

  lemma DecideCounts(c: Config, s: State, stop: bool)
    ensures Decide(c, s, stop).handled == s.handled && Decide(c, s, stop).ch == s.ch
  {
  }

  lemma StepCounts(c: Config, s: State, e: Event, t: State)
    requires c.Valid() && Inv(c, s) && Step(c, s, e, t)
    ensures t.handled == s.handled + (if e.Handle? then 1 else 0)
    ensures |t.ch| + (if e.Handle? then 1 else 0) == |s.ch| + (if e.Report? then 1 else 0)
  {
    if e.Handle? {
      var half := Receive(c, s);
      assert !half.crashed && half.handled == s.handled + 1 by {
        ReceiveKeeps(c, s);
      }
      assert half.ch == s.ch[1..];
      DecideCounts(c, half, e.stop);
    } else if e.Abandon? {
      DecideCounts(c, s.(terminated := true, cancelled := true), e.stop);
    }
  }

  /** The updates received and the reports sent, counted by the state. */
  lemma {:induction false} RunCounts(c: Config, states: seq<State>, events: seq<Event>)
    requires c.Valid() && IsRun(c, states, events)
    ensures var s := states[|events|];
            && s.handled == CountReceived(events)
            && CountReported(events) + 1 == CountReceived(events) + |s.ch|
  {
    if events != [] {
      var n := |events| - 1;
      RunPrefix(c, states, events);
      RunCounts(c, states[..n + 1], events[..n]);
      RunKeepsInv(c, states, events);
      StepCounts(c, states[n], events[n], states[n + 1]);
    }
  }

  /** A lookup over a finite universe receives at most one update per peer besides the seeds,
      and at most one worker per peer ever reports. */
  lemma LookupIsBounded(c: Config, states: seq<State>, events: seq<Event>)
    requires c.Valid() && IsRun(c, states, events)
    ensures CountReceived(events) <= |c.space.universe| + 1
    ensures CountReported(events) <= |c.space.universe|
  {
    RunCounts(c, states, events);
    RunKeepsInv(c, states, events);
    var s := states[|events|];
    if s.handled > 0 {
      UpdatesBounded(c, s);
    }
  }

  lemma UpdatesBounded(c: Config, s: State)
    requires Consistent(c, s) && s.handled > 0
    ensures s.handled + |s.ch| <= |c.space.universe| + 1
  {
    var waiting, settled := Matching(s.peers, {Waiting}), Matching(s.peers, {Queried, Unreachable});
    assert |s.ch| <= |waiting| by {
      CausesCount(s.ch);
      SubsetCardinality(Causes(s.ch), waiting);
    }
    assert waiting !! settled && waiting + settled <= c.space.universe;
    assert |waiting + settled| == |waiting| + |settled|;
    SubsetCardinality(waiting + settled, c.space.universe);
  }

  /** The order in which a peer passes through its states. */
  predicate Forward(a: PeerState, b: PeerState) {
    a == b || a == Heard || (a == Waiting && b != Heard)
  }

  ghost predicate OnlyForward(m: Peers, m': Peers) {
    forall p | p in m :: p in m' && Forward(m[p], m'[p])
  }

  lemma ReceiveOnlyForward(c: Config, s: State)
    requires c.Valid() && Consistent(c, s) && s.ch != []
    ensures OnlyForward(s.peers, Receive(c, s).peers)
  {
    if s.handled > 0 {
      HeadIsWaiting(c, s);
      ReceiveReport(c, s);
    }
  }

  /** All an iteration's second half does to the peers is to start waiting for some heard ones. */
  lemma DecideSpawns(c: Config, s: State, stop: bool) returns (ps: set<PeerId>)
    requires c.Valid() && s.peers.Keys <= c.space.universe
    ensures ps <= Matching(s.peers, {Heard}) && Decide(c, s, stop).peers == Spawn(s.peers, ps)
    ensures Decide(c, s, stop).ch == s.ch && Decide(c, s, stop).handled == s.handled
  {
    ps := {};
    assert Spawn(s.peers, {}) == s.peers;
    var waiting := |Matching(s.peers, {Waiting})|;
    if !stop && !Starved(s.peers) && !BetaQueried(c, s.peers) && waiting <= c.alpha && !s.terminated {
      ps := Elements(ClosestN(c.space, s.peers, c.alpha - waiting, {Heard}));
      NextPeers(c, s.peers, c.alpha - waiting);
    }
  }

  lemma DecideOnlyForward(c: Config, s: State, stop: bool)
    requires c.Valid() && s.peers.Keys <= c.space.universe
    ensures OnlyForward(s.peers, Decide(c, s, stop).peers)
  {
    var ps := DecideSpawns(c, s, stop);
    assert forall p | p in ps :: p in Matching(s.peers, {Heard});
  }

  lemma NextOnlyForward(c: Config, s: State, e: Event)
    requires c.Valid() && Inv(c, s) && Enabled(c, s, e)
    ensures OnlyForward(s.peers, Next(c, s, e).peers)
  {
    if e.Handle? {
      var t := Receive(c, s);
      ReceiveKeeps(c, s);
      ReceiveOnlyForward(c, s);
      DecideOnlyForward(c, t, e.stop);
    } else if e.Abandon? {
      DecideOnlyForward(c, s.(terminated := true, cancelled := true), e.stop);
    }
  }

  /** No peer ever leaves the set, and each one only moves from heard to waiting to a final
      state. */
  lemma {:induction false} PeersMoveForward(c: Config, states: seq<State>, events: seq<Event>, i: nat, j: nat)
    requires c.Valid() && IsRun(c, states, events) && i <= j < |states|
    ensures OnlyForward(states[i].peers, states[j].peers)
    decreases j
  {
    if i < j {
      PeersMoveForward(c, states, events, i, j - 1);
      assert OnlyForward(states[j - 1].peers, states[j].peers) by {
        RunKeepsInv(c, states, events);
        assert Step(c, states[j - 1], events[j - 1], states[j]);
        NextOnlyForward(c, states[j - 1], events[j - 1]);
      }
    }
  }

  // ---------- What the states of the peers mean ----------

  /** What a worker reports if its query failed. */
  function FailureOf(p: PeerId): Update {
    Update(p, [], [], [p], 0)
  }

  predicate HasState(m: Peers, p: PeerId, state: PeerState) {
    p in m && m[p] == state
  }

  /** The step receives the peer's report that its query failed. */
  predicate ReceivesFailure(s: State, e: Event, p: PeerId) {
    e.Handle? && s.ch != [] && s.ch[0] == FailureOf(p)
  }

  /** The step receives the peer's answer. */
  predicate ReceivesAnswer(s: State, e: Event, p: PeerId) {
    e.Handle? && s.ch != [] && s.ch[0].cause == p && s.ch[0].queried == [p]
  }

  /** The step receives an update that names the peer. */
  predicate ReceivesNameOf(c: Config, s: State, e: Event, p: PeerId) {
    e.Handle? && s.ch != [] && p != c.self && p in s.ch[0].heard
  }

  lemma ReceiveUpdates(c: Config, s: State)
    requires c.Valid() && Consistent(c, s) && s.ch != []
    ensures Updates(s.peers, Receive(c, s).peers, c.self, s.ch[0])
  {
    assert Absorb(s.peers, c.self, s.ch[0]).Some? by {
      ReceiveKeeps(c, s);
    }
    AbsorbUpdates(s.peers, c.self, s.ch[0]);
  }

  /** A received update is the seeds, a failure, or an answer. */
  lemma HeadIsReport(c: Config, s: State)
    requires c.Valid() && Consistent(c, s) && s.ch != []
    ensures var up := s.ch[0];
            || (up.queried == [] && up.unreachable == [])
            || (up.cause != c.self && up == FailureOf(up.cause))
            || (up.cause != c.self && up.queried == [up.cause] && up.unreachable == [])
  {
    if s.handled > 0 {
      HeadIsWaiting(c, s);
    }
  }

  lemma StepSettles(c: Config, s: State, e: Event, p: PeerId)
    requires c.Valid() && Inv(c, s) && Enabled(c, s, e)
    ensures var t := Next(c, s, e);
            && (HasState(t.peers, p, Unreachable) <==> HasState(s.peers, p, Unreachable) || ReceivesFailure(s, e, p))
            && (HasState(t.peers, p, Queried) <==> HasState(s.peers, p, Queried) || ReceivesAnswer(s, e, p))
            && (p in t.peers <==> p in s.peers || ReceivesNameOf(c, s, e, p))
  {
    if e.Handle? {
      ReceiveKeeps(c, s);
      ReceiveSettles(c, s, p);
      DecideSettles(c, Receive(c, s), e.stop, p);
    } else if e.Abandon? {
      DecideSettles(c, s.(terminated := true, cancelled := true), e.stop, p);
    }
  }

  lemma ReceiveSettles(c: Config, s: State, p: PeerId)
    requires c.Valid() && Inv(c, s) && s.ch != []
    ensures var t := Receive(c, s);
            && (HasState(t.peers, p, Unreachable) <==> HasState(s.peers, p, Unreachable) || s.ch[0] == FailureOf(p))
            && (HasState(t.peers, p, Queried) <==>
                HasState(s.peers, p, Queried) || (s.ch[0].cause == p && s.ch[0].queried == [p]))
            && (p in t.peers <==> p in s.peers || (p != c.self && p in s.ch[0].heard))
  {
    ReceiveUpdates(c, s);
    HeadIsReport(c, s);
    if s.handled > 0 {
      HeadIsWaiting(c, s);
    }
  }

  lemma DecideSettles(c: Config, s: State, stop: bool, p: PeerId)
    requires c.Valid() && s.peers.Keys <= c.space.universe
    ensures var t := Decide(c, s, stop);
            && (HasState(t.peers, p, Unreachable) <==> HasState(s.peers, p, Unreachable))
            && (HasState(t.peers, p, Queried) <==> HasState(s.peers, p, Queried))
            && (p in t.peers <==> p in s.peers)
  {
    var ps := DecideSpawns(c, s, stop);
    assert p in ps ==> p in Matching(s.peers, {Heard});
  }

  ghost predicate WasNamed(c: Config, states: seq<State>, events: seq<Event>, i: nat, p: PeerId)
    requires i <= |events| <= |states|
  {
    exists j | 0 <= j < i :: ReceivesNameOf(c, states[j], events[j], p)
  }

  ghost predicate Failed(states: seq<State>, events: seq<Event>, i: nat, p: PeerId)
    requires i <= |events| <= |states|
  {
    exists j | 0 <= j < i :: ReceivesFailure(states[j], events[j], p)
  }

  ghost predicate Answered(states: seq<State>, events: seq<Event>, i: nat, p: PeerId)
    requires i <= |events| <= |states|
  {
    exists j | 0 <= j < i :: ReceivesAnswer(states[j], events[j], p)
  }

  lemma ReceivedMore(c: Config, states: seq<State>, events: seq<Event>, i: nat, p: PeerId)
    requires 0 < i <= |events| <= |states|
    ensures WasNamed(c, states, events, i, p) <==>
            WasNamed(c, states, events, i - 1, p) || ReceivesNameOf(c, states[i - 1], events[i - 1], p)
    ensures Failed(states, events, i, p) <==>
            Failed(states, events, i - 1, p) || ReceivesFailure(states[i - 1], events[i - 1], p)
    ensures Answered(states, events, i, p) <==>
            Answered(states, events, i - 1, p) || ReceivesAnswer(states[i - 1], events[i - 1], p)
  {
  }

  lemma RunSettles(c: Config, states: seq<State>, events: seq<Event>, i: nat, p: PeerId)
    requires c.Valid() && IsRun(c, states, events) && i < |events|
    ensures var s, e, t := states[i], events[i], states[i + 1];
            && (HasState(t.peers, p, Unreachable) <==> HasState(s.peers, p, Unreachable) || ReceivesFailure(s, e, p))
            && (HasState(t.peers, p, Queried) <==> HasState(s.peers, p, Queried) || ReceivesAnswer(s, e, p))
            && (p in t.peers <==> p in s.peers || ReceivesNameOf(c, s, e, p))
  {
    assert Inv(c, states[i]) by {
      RunKeepsInv(c, states, events);
    }
    assert Step(c, states[i], events[i], states[i + 1]);
    StepSettles(c, states[i], events[i], p);
  }

  /** Over a run: a peer is known exactly if a received update named it, unreachable exactly if the failure of
      its query was received, and queried exactly if its answer was. */
  lemma {:induction false} StatesTellReports(
      c: Config, states: seq<State>, events: seq<Event>, i: nat, p: PeerId)
    requires c.Valid() && IsRun(c, states, events) && i < |states|
    ensures p in states[i].peers <==> WasNamed(c, states, events, i, p)
    ensures HasState(states[i].peers, p, Unreachable) <==> Failed(states, events, i, p)
    ensures HasState(states[i].peers, p, Queried) <==> Answered(states, events, i, p)
  {
    if i > 0 {
      StatesTellReports(c, states, events, i - 1, p);
      RunSettles(c, states, events, i - 1, p);
      ReceivedMore(c, states, events, i, p);
    }
  }

  /** Once the first update has been received, all seeds but the local peer are known. */
  lemma {:induction false} SeedsAreKnown(c: Config, states: seq<State>, events: seq<Event>, i: nat)
    requires c.Valid() && IsRun(c, states, events) && i < |states| && states[i].handled > 0
    ensures forall p | p in c.seeds && p != c.self :: p in states[i].peers
  {
    if i > 0 {
      var s, e := states[i - 1], events[i - 1];
      assert Inv(c, s) by {
        RunKeepsInv(c, states, events);
      }
      assert Step(c, s, e, states[i]);
      if s.handled > 0 {
        SeedsAreKnown(c, states, events, i - 1);
        assert OnlyForward(s.peers, states[i].peers) by {
          NextOnlyForward(c, s, e);
        }
      } else {
        FirstIsSeeds(c, s, e);
      }
    }
  }

  lemma FirstIsSeeds(c: Config, s: State, e: Event)
    requires c.Valid() && Inv(c, s) && Enabled(c, s, e) && s.handled == 0 && Next(c, s, e).handled > 0
    ensures forall p | p in c.seeds && p != c.self :: p in Next(c, s, e).peers
  {
    StepCounts(c, s, e, Next(c, s, e));
    forall p | p in c.seeds && p != c.self
      ensures p in Next(c, s, e).peers
    {
      StepSettles(c, s, e, p);
    }
  }

  // ---------- Which peers are queried next ----------

  /** The budget is used, nearest first: alpha peers wait unless nobody is left heard, and each peer that
      started to wait is nearer than each that is left heard. */
  ghost predicate UsesBudget(c: Config, m: Peers, m': Peers) {
    && (|Matching(m', {Waiting})| == c.alpha || Matching(m', {Heard}) == {})
    && forall p, q | p in Matching(m', {Waiting}) && p !in Matching(m, {Waiting}) && q in Matching(m', {Heard}) ::
         c.space.dist(p) < c.space.dist(q)
  }

  lemma NearestFirst(c: Config, m: Peers, n: nat, p: PeerId, q: PeerId)
    requires c.Valid() && m.Keys <= c.space.universe
    requires p in ClosestN(c.space, m, n, {Heard})
    requires q in Matching(m, {Heard}) && q !in ClosestN(c.space, m, n, {Heard})
    ensures c.space.dist(p) < c.space.dist(q)
  {
    AscendingOrders(c.space, Matching(m, {Heard}));
    var all := Ascending(c.space, Matching(m, {Heard}));
    assert q in Elements(all);
  }

  lemma StillHeard(m: Peers, ps: set<PeerId>)
    ensures Matching(Spawn(m, ps), {Heard}) == Matching(m, {Heard}) - ps
  {
  }

  /** As many as wanted are taken, or all there are. */
  lemma TakenOrAll(c: Config, m: Peers, n: nat)
    requires c.Valid() && m.Keys <= c.space.universe
    ensures var next := Elements(ClosestN(c.space, m, n, {Heard}));
            |next| == n || next == Matching(m, {Heard})
  {
    AscendingOrders(c.space, Matching(m, {Heard}));
    NoDuplicatesCardinality(ClosestN(c.space, m, n, {Heard}));
  }

  lemma SpawnUsesBudget(c: Config, m: Peers)
    requires c.Valid() && m.Keys <= c.space.universe && |Matching(m, {Waiting})| <= c.alpha
    ensures var next := Elements(ClosestN(c.space, m, c.alpha - |Matching(m, {Waiting})|, {Heard}));
            UsesBudget(c, m, Spawn(m, next))
  {
    var waiting := Matching(m, {Waiting});
    var n := c.alpha - |waiting|;
    var next := Elements(ClosestN(c.space, m, n, {Heard}));
    NextPeers(c, m, n);
    SpawnMatching(m, next);
    StillHeard(m, next);
    assert |waiting + next| == c.alpha || Matching(m, {Heard}) - next == {} by {
      TakenOrAll(c, m, n);
      assert |waiting + next| == |waiting| + |next|;
    }
    forall p, q | p in next && q in Matching(m, {Heard}) - next
      ensures c.space.dist(p) < c.space.dist(q)
    {
      NearestFirst(c, m, n, p, q);
    }
  }

  lemma DecideUsesBudget(c: Config, s: State, stop: bool)
    requires c.Valid() && s.peers.Keys <= c.space.universe && |Matching(s.peers, {Waiting})| <= c.alpha
    requires !Decide(c, s, stop).terminated
    ensures UsesBudget(c, s.peers, Decide(c, s, stop).peers)
  {
    SpawnUsesBudget(c, s.peers);
  }

  /** An iteration that does not end the loop uses its budget. */
  lemma IterationUsesBudget(c: Config, states: seq<State>, events: seq<Event>, i: nat)
    requires c.Valid() && IsRun(c, states, events) && i < |events| && events[i].Handle? && !states[i + 1].terminated
    ensures states[i].ch != [] && UsesBudget(c, Receive(c, states[i]).peers, states[i + 1].peers)
  {
    assert Consistent(c, states[i]) by {
      RunKeepsInv(c, states, events);
    }
    assert Step(c, states[i], events[i], states[i + 1]);
    ReceiveKeeps(c, states[i]);
    DecideUsesBudget(c, Receive(c, states[i]), events[i].stop);
  }
}
