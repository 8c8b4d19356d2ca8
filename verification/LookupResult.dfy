/** What the result of a lookup means: its completed flag, and when its nearest peers are the
    nearest peers of the whole network. */
module LookupResult {
  import opened Base
  import opened KeySpace
  import opened PeerOrder
  import opened Lookup

  const LIVE: set<PeerState> := {Heard, Waiting, Queried}
  const ANY: set<PeerState> := {Heard, Waiting, Queried, Unreachable}

  /** The flag computed when a lookup's result is put together. */
  ghost predicate Completed(c: Config, m: Peers) {
    BetaQueried(c, m) || Starved(m)
  }

  /** Starvation is a special case of the beta condition, which holds exactly when every
      reachable peer with fewer than beta nearer reachable peers has been queried. */
  lemma CompletedMeansBetaNearestQueried(c: Config, m: Peers)
    requires c.Valid() && m.Keys <= c.space.universe
    ensures Starved(m) ==> BetaQueried(c, m)
    ensures Completed(c, m) <==>
            forall p | p in Matching(m, LIVE) && |Closer(c.space, Matching(m, LIVE), p)| < c.beta :: m[p] == Queried
  {
    ClosestNShape(c.space, m, c.beta, LIVE);
    var near := ClosestN(c.space, m, c.beta, LIVE);
    assert forall p | p in near :: p in Elements(near);
    forall p | p in Matching(m, LIVE)
      ensures p in near <==> |Closer(c.space, Matching(m, LIVE), p)| < c.beta
    {
      InClosestN(c.space, m, c.beta, LIVE, p);
    }
    assert Starved(m) ==> forall p | p in Matching(m, LIVE) :: m[p] == Queried by {
      forall p | Starved(m) && p in Matching(m, LIVE)
        ensures m[p] == Queried
      {
        assert p !in Matching(m, {Heard}) && p !in Matching(m, {Waiting});
      }
    }
  }

  /** Nothing outside the lookup interferes: no cancellation, and the stop function says no. */
  predicate Undisturbed(e: Event) {
    match e
    case Report(_, _) => true
    case Cancel => false
    case Handle(stop) => !stop
    case Abandon(_) => false
  }

  lemma UndisturbedStep(c: Config, s: State, e: Event)
    requires c.Valid() && Inv(c, s) && Enabled(c, s, e) && Undisturbed(e)
    requires s.terminated ==> Completed(c, s.peers)
    ensures Next(c, s, e).terminated ==> Completed(c, Next(c, s, e).peers)
  {
    if e.Handle? {
      ReceiveKeeps(c, s);
    }
  }

  /** An undisturbed lookup only ends by completing. */
  lemma {:induction false} UndisturbedCompletes(c: Config, states: seq<State>, events: seq<Event>)
    requires c.Valid() && IsRun(c, states, events)
    requires forall i | 0 <= i < |events| :: Undisturbed(events[i])
    ensures states[|events|].terminated ==> Completed(c, states[|events|].peers)
  {
    if events != [] {
      var n := |events| - 1;
      RunPrefix(c, states, events);
      UndisturbedCompletes(c, states[..n + 1], events[..n]);
      RunKeepsInv(c, states, events);
      assert Step(c, states[n], events[n], states[n + 1]);
      UndisturbedStep(c, states[n], events[n]);
    }
  }

  /** Starting workers neither completes a lookup nor undoes that. */
  lemma SpawnKeepsBeta(c: Config, m: Peers, ps: set<PeerId>)
    requires ps <= Matching(m, {Heard})
    ensures BetaQueried(c, Spawn(m, ps)) <==> BetaQueried(c, m)
  {
    var m' := Spawn(m, ps);
    assert Matching(m', LIVE) == Matching(m, LIVE);
    assert ClosestN(c.space, m', c.beta, LIVE) == ClosestN(c.space, m, c.beta, LIVE);
    assert forall p | p in m :: m'[p] == Queried <==> m[p] == Queried;
  }

  lemma BetaMeansCompleted(c: Config, m: Peers)
    requires c.Valid() && m.Keys <= c.space.universe
    ensures Completed(c, m) <==> BetaQueried(c, m)
  {
    CompletedMeansBetaNearestQueried(c, m);
  }

  /** An iteration that does not end the loop leaves a lookup that is not complete. */
  lemma DecideGoesOn(c: Config, s: State, stop: bool)
    requires c.Valid() && s.peers.Keys <= c.space.universe
    requires !Decide(c, s, stop).terminated
    ensures !Completed(c, Decide(c, s, stop).peers)
  {
    assert !BetaQueried(c, s.peers);
    var ps := DecideSpawns(c, s, stop);
    SpawnKeepsBeta(c, s.peers, ps);
    BetaMeansCompleted(c, Spawn(s.peers, ps));
  }

  /** Between its first update and its end a lookup is not complete. */
  ghost predicate Underway(c: Config, s: State) {
    !s.terminated && s.handled > 0 ==> !Completed(c, s.peers)
  }

  lemma StepKeepsUnderway(c: Config, s: State, e: Event, t: State)
    requires c.Valid() && Inv(c, s) && Step(c, s, e, t) && Underway(c, s)
    ensures Underway(c, t)
  {
    if e.Handle? {
      ReceiveKeeps(c, s);
      if !Decide(c, Receive(c, s), e.stop).terminated {
        DecideGoesOn(c, Receive(c, s), e.stop);
      }
    } else if e.Abandon? {
      AbandonEnds(c, s, e.stop);
    }
  }

  lemma AbandonEnds(c: Config, s: State, stop: bool)
    requires c.Valid() && Inv(c, s) && Enabled(c, s, Abandon(stop))
    ensures Next(c, s, Abandon(stop)).terminated && Next(c, s, Abandon(stop)).peers == s.peers
  {
  }

  lemma {:induction false} RunIsUnderway(c: Config, states: seq<State>, events: seq<Event>, i: nat)
    requires c.Valid() && IsRun(c, states, events) && i < |states|
    ensures Underway(c, states[i])
  {
    if i == 0 {
      assert states[0].handled == 0;
    } else {
      RunIsUnderway(c, states, events, i - 1);
      RunInv(c, states, events, i - 1);
      assert Step(c, states[i - 1], events[i - 1], states[i]);
      StepKeepsUnderway(c, states[i - 1], events[i - 1], states[i]);
    }
  }

  lemma RunInv(c: Config, states: seq<State>, events: seq<Event>, i: nat)
    requires c.Valid() && IsRun(c, states, events) && i < |states|
    ensures Inv(c, states[i])
  {
    RunKeepsInv(c, states, events);
  }

  /** After its end the peer set of a lookup does not change. */
  lemma {:induction false} PeersFrozen(c: Config, states: seq<State>, events: seq<Event>, i: nat, j: nat)
    requires IsRun(c, states, events) && i <= j < |states| && states[i].terminated
    ensures states[j].terminated && states[j].peers == states[i].peers
    decreases j
  {
    if i < j {
      PeersFrozen(c, states, events, i, j - 1);
      assert Step(c, states[j - 1], events[j - 1], states[j]);
    }
  }

  /** Whether the iteration that receives the next update ends the loop by itself. */
  ghost predicate EndsAnyway(c: Config, s: State) {
    s.ch != [] && Completed(c, Receive(c, s).peers)
  }

  /** When a result is flagged as completed, for every run that ended, in its i-th step: if that step
      received an update, exactly if this one ended the lookup anyway, whether or not the stop function
      asked for an end; and if it saw the caller's context ended, exactly if no update had been received.
      In the latter case the flag is wrong, and the peer set is empty. */
  lemma FlaggedIff(c: Config, states: seq<State>, events: seq<Event>, i: nat)
    requires c.Valid() && IsRun(c, states, events) && i < |events|
    requires !states[i].terminated && states[i + 1].terminated
    ensures Completed(c, states[|events|].peers) <==>
            if events[i].Handle? then EndsAnyway(c, states[i]) else states[i].handled == 0
    ensures events[i].Handle? || (events[i].Abandon? && states[i].ctxDone)
    ensures events[i].Abandon? && states[i].handled == 0 ==> states[|events|].peers == map[]
  {
    var s, e, t := states[i], events[i], states[i + 1];
    PeersFrozen(c, states, events, i + 1, |events|);
    RunInv(c, states, events, i);
    assert Step(c, s, e, t);
    if e.Handle? {
      ReceiveKeeps(c, s);
    } else {
      AbandonEnds(c, s, e.stop);
      RunIsUnderway(c, states, events, i);
    }
  }

  /** When the loop ends: a step that receives an update ends it exactly if the stop function asks for that or
      the update does so anyway, and one that sees the context ended always does. */
  lemma EndsExactly(c: Config, states: seq<State>, events: seq<Event>, i: nat)
    requires c.Valid() && IsRun(c, states, events) && i < |events|
    ensures events[i].Handle? ==> (states[i + 1].terminated <==> events[i].stop || EndsAnyway(c, states[i]))
    ensures events[i].Abandon? ==> states[i + 1].terminated
    ensures events[i].Report? || events[i].Cancel? ==> states[i + 1].terminated == states[i].terminated
  {
    var s, e := states[i], events[i];
    RunInv(c, states, events, i);
    assert Step(c, s, e, states[i + 1]);
    if e.Handle? {
      ReceiveKeeps(c, s);
    } else if e.Abandon? {
      AbandonEnds(c, s, e.stop);
    }
  }

  /** A lookup that ended did so in one step. */
  lemma {:induction false} FindEnd(c: Config, states: seq<State>, events: seq<Event>) returns (i: nat)
    requires IsRun(c, states, events) && states[|events|].terminated
    ensures i < |events| && !states[i].terminated && states[i + 1].terminated
  {
    var n := |events| - 1;
    if states[n].terminated {
      RunPrefix(c, states, events);
      i := FindEnd(c, states[..n + 1], events[..n]);
    } else {
      i := n;
    }
  }

  /** The wrong flag does occur: a lookup whose context is cancelled before it reads its seeds. */
  lemma CancelledYetCompleted(c: Config)
    requires c.Valid()
    ensures var s1 := Init(c).(cancelled := true, ctxDone := true);
            var states := [Init(c), s1, s1.(terminated := true)];
            && IsRun(c, states, [Cancel, Abandon(false)])
            && states[2].terminated
            && Completed(c, states[2].peers)
  {
    var s1 := Init(c).(cancelled := true, ctxDone := true);
    var s2 := s1.(terminated := true);
    var states, events := [Init(c), s1, s2], [Cancel, Abandon(false)];
    assert Step(c, states[0], events[0], states[1]);
    assert Starved(s2.peers);
    assert Step(c, states[1], events[1], states[2]);
  }

  // ---------- Convergence ----------

  /** Peer p's answer names as many strictly nearer peers of the network as there are, up to
      the bucket size. */
  ghost predicate Helpful(c: Config, net: set<PeerId>, p: PeerId, known: set<PeerId>) {
    Smaller(c.bucketSize, |Closer(c.space, net, p)|) <= |Closer(c.space, known, p)|
  }

  ghost predicate HelpfulUpdate(c: Config, net: set<PeerId>, up: Update) {
    && up.queried == [up.cause]
    && Elements(up.heard) <= net
    && Helpful(c, net, up.cause, Elements(up.heard))
  }

  /** Undisturbed, and every peer answers helpfully. */
  ghost predicate Honest(c: Config, net: set<PeerId>, e: Event) {
    Undisturbed(e) && (e.Report? ==> HelpfulUpdate(c, net, e.up))
  }

  ghost predicate Network(c: Config, net: set<PeerId>) {
    c.self !in net && net <= c.space.universe && Elements(c.seeds) - {c.self} <= net
  }

  /** All peers known are in the network, none is unreachable, and all that was learned from
      the queried ones is still known. */
  ghost predicate Learned(c: Config, net: set<PeerId>, s: State) {
    && s.peers.Keys <= net
    && Matching(s.peers, {Unreachable}) == {}
    && (forall p | p in Matching(s.peers, {Queried}) :: Helpful(c, net, p, s.peers.Keys))
    && (s.handled > 0 ==> forall i | 0 <= i < |s.ch| :: HelpfulUpdate(c, net, s.ch[i]))
  }

  lemma HelpfulGrows(c: Config, net: set<PeerId>, p: PeerId, known: set<PeerId>, more: set<PeerId>)
    requires Helpful(c, net, p, known) && known <= more
    ensures Helpful(c, net, p, more)
  {
    SubsetCardinality(Closer(c.space, known, p), Closer(c.space, more, p));
  }

  lemma CloserInNetwork(c: Config, net: set<PeerId>, p: PeerId, known: set<PeerId>)
    requires known <= net
    ensures Closer(c.space, known, p) <= Closer(c.space, net, p)
  {
  }

  /** Whatever was learned stays known when the known peers grow and nobody fails. */
  lemma LearnedGrows(c: Config, net: set<PeerId>, s: State, t: State, p: PeerId)
    requires Learned(c, net, s)
    requires s.peers.Keys <= t.peers.Keys <= net
    requires Matching(t.peers, {Queried}) <= Matching(s.peers, {Queried}) + {p}
    requires Matching(t.peers, {Unreachable}) == {}
    requires p in Matching(t.peers, {Queried}) ==> Helpful(c, net, p, t.peers.Keys)
    requires t.handled > 0 ==> forall i | 0 <= i < |t.ch| :: HelpfulUpdate(c, net, t.ch[i])
    ensures Learned(c, net, t)
  {
    forall q | q in Matching(t.peers, {Queried})
      ensures Helpful(c, net, q, t.peers.Keys)
    {
      if q != p {
        assert q in Matching(s.peers, {Queried});
        HelpfulGrows(c, net, q, s.peers.Keys, t.peers.Keys);
      }
    }
  }

  lemma AbsorbedHelpful(c: Config, net: set<PeerId>, m: Peers, up: Update)
    requires up.cause in m && m[up.cause] == Waiting
    requires HelpfulUpdate(c, net, up) && c.self !in Elements(up.heard)
    requires m.Keys <= net && Matching(m, {Unreachable}) == {}
    ensures var t := Absorbed(m, c.self, up);
            && m.Keys <= t.Keys <= net
            && Matching(t, {Queried}) <= Matching(m, {Queried}) + {up.cause}
            && Matching(t, {Unreachable}) == {}
            && Helpful(c, net, up.cause, t.Keys)
  {
    var t := Absorbed(m, c.self, up);
    AbsorbedMatching(c, m, up);
    HelpfulGrows(c, net, up.cause, Elements(up.heard), t.Keys);
    assert forall p | p in t && t[p] == Unreachable :: p in Matching(m, {Unreachable});
  }

  lemma ReceiveLearned(c: Config, net: set<PeerId>, s: State)
    requires c.Valid() && Network(c, net) && Consistent(c, s) && s.ch != [] && Learned(c, net, s)
    ensures Learned(c, net, Receive(c, s))
  {
    if s.handled == 0 {
      assert Receive(c, s).peers == AddHeard(map[], c.self, Elements(c.seeds));
      assert AddHeard(map[], c.self, Elements(c.seeds)).Keys <= Elements(c.seeds) - {c.self};
      LearnedGrows(c, net, s, Receive(c, s), c.self);
    } else {
      assert Receive(c, s) == Received(c, s) by {
        ReceiveReport(c, s);
      }
      HeadIsWaiting(c, s);
      assert HelpfulUpdate(c, net, s.ch[0]);
      AbsorbedHelpful(c, net, s.peers, s.ch[0]);
      LearnedGrows(c, net, s, Received(c, s), s.ch[0].cause);
    }
  }

  lemma DecideLearned(c: Config, net: set<PeerId>, s: State)
    requires c.Valid() && Network(c, net) && Learned(c, net, s)
    ensures Learned(c, net, Decide(c, s, false))
  {
    var ps := DecideSpawns(c, s, false);
    var t := Decide(c, s, false);
    assert t.peers.Keys == s.peers.Keys;
    assert Matching(t.peers, {Queried}) <= Matching(s.peers, {Queried});
    assert Matching(t.peers, {Unreachable}) <= Matching(s.peers, {Unreachable});
    LearnedGrows(c, net, s, t, c.self);
  }

  lemma StepLearned(c: Config, net: set<PeerId>, s: State, e: Event)
    requires c.Valid() && Network(c, net) && Inv(c, s) && Learned(c, net, s)
    requires Enabled(c, s, e) && Honest(c, net, e)
    ensures Learned(c, net, Next(c, s, e))
  {
    if e.Handle? {
      ReceiveKeeps(c, s);
      ReceiveLearned(c, net, s);
      DecideLearned(c, net, Receive(c, s));
    }
  }

  lemma {:induction false} RunLearned(c: Config, net: set<PeerId>, states: seq<State>, events: seq<Event>)
    requires c.Valid() && Network(c, net) && IsRun(c, states, events)
    requires forall i | 0 <= i < |events| :: Honest(c, net, events[i])
    ensures Learned(c, net, states[|events|])
  {
    if events != [] {
      var n := |events| - 1;
      RunPrefix(c, states, events);
      RunLearned(c, net, states[..n + 1], events[..n]);
      RunKeepsInv(c, states, events);
      assert Step(c, states[n], events[n], states[n + 1]);
      StepLearned(c, net, states[n], events[n]);
    }
  }

  /** If the i-th nearest known peer answered helpfully and i is below the bucket size, all
      peers of the network nearer than it are known. */
  lemma NearerAreKnown(c: Config, net: set<PeerId>, mine: seq<PeerId>, i: nat)
    requires Ascends(c.space, mine) && Elements(mine) <= net
    requires i < |mine| && i < c.bucketSize
    requires Helpful(c, net, mine[i], Elements(mine))
    ensures Closer(c.space, net, mine[i]) == Closer(c.space, Elements(mine), mine[i])
  {
    PositionIsRank(c.space, mine, i);
    CloserInNetwork(c, net, mine[i], Elements(mine));
    SubsetCardinality(Closer(c.space, Elements(mine), mine[i]), Closer(c.space, net, mine[i]));
  }

  /** Two ascending sequences that share a member with the same nearer members agree up to it. */
  lemma PrefixesAgree(space: Space, a: seq<PeerId>, b: seq<PeerId>, i: nat)
    requires Ascends(space, a) && Ascends(space, b) && i < |a| && a[i] in b
    requires Closer(space, Elements(a), a[i]) == Closer(space, Elements(b), a[i])
    ensures |b| > i && a[..i + 1] == b[..i + 1]
  {
    var j :| 0 <= j < |b| && b[j] == a[i];
    PositionIsRank(space, a, i);
    PositionIsRank(space, b, j);
    AscendingUnique(space, a[..i], b[..i]);
    assert a[..i + 1] == a[..i] + [a[i]] && b[..i + 1] == b[..i] + [b[i]];
  }

  /** Convergence of a final state: its r nearest peers are queried, so they are the r nearest
      of the network. */
  lemma NearestAreNearest(c: Config, mine: seq<PeerId>, all: seq<PeerId>, r: nat)
    requires Ascends(c.space, mine) && Ascends(c.space, all) && Elements(mine) <= Elements(all)
    requires r <= |mine| && r <= c.bucketSize
    requires r > 0 ==> Helpful(c, Elements(all), mine[r - 1], Elements(mine))
    ensures |all| >= r && mine[..r] == all[..r]
  {
    if r > 0 {
      NearerAreKnown(c, Elements(all), mine, r - 1);
      assert mine[r - 1] in Elements(mine);
      PrefixesAgree(c.space, mine, all, r - 1);
    }
  }

  lemma AllLive(m: Peers)
    requires Matching(m, {Unreachable}) == {}
    ensures Matching(m, LIVE) == m.Keys
  {
    forall p | p in m
      ensures p in Matching(m, LIVE)
    {
      assert p !in Matching(m, {Unreachable});
      var state := m[p];
      assert state == Heard || state == Waiting || state == Queried || state == Unreachable;
    }
  }

  /** Convergence: when a lookup that nothing disturbs and whose peers all answer helpfully ends, the first
      min(beta, known) peers of its result are that many nearest peers of the network. */
  lemma LookupConverges(c: Config, net: set<PeerId>, states: seq<State>, events: seq<Event>)
    requires c.Valid() && c.beta <= c.bucketSize && Network(c, net) && IsRun(c, states, events)
    requires forall i | 0 <= i < |events| :: Honest(c, net, events[i])
    requires states[|events|].terminated
    ensures var known := states[|events|].peers.Keys;
            var r := Smaller(c.beta, |known|);
            var result := ClosestN(c.space, states[|events|].peers, c.bucketSize, LIVE);
            && |result| >= r && |Ascending(c.space, net)| >= r
            && result[..r] == Ascending(c.space, net)[..r]
  {
    RunLearned(c, net, states, events);
    UndisturbedCompletes(c, states, events);
    FinalConverges(c, net, states[|events|]);
    ResultHoldsNearest(c, states[|events|].peers, Smaller(c.beta, |states[|events|].peers.Keys|));
  }

  /** With nobody unreachable a result begins with the nearest known peers. */
  lemma ResultHoldsNearest(c: Config, m: Peers, r: nat)
    requires Matching(m, {Unreachable}) == {} && r <= c.bucketSize && r <= |Ascending(c.space, m.Keys)|
    ensures |ClosestN(c.space, m, c.bucketSize, LIVE)| >= r
    ensures ClosestN(c.space, m, c.bucketSize, LIVE)[..r] == Ascending(c.space, m.Keys)[..r]
  {
    AllLive(m);
  }

  lemma FinalConverges(c: Config, net: set<PeerId>, s: State)
    requires c.Valid() && c.beta <= c.bucketSize && net <= c.space.universe
    requires Learned(c, net, s) && Completed(c, s.peers)
    ensures var r := Smaller(c.beta, |s.peers.Keys|);
            && |Ascending(c.space, s.peers.Keys)| >= r && |Ascending(c.space, net)| >= r
            && Ascending(c.space, s.peers.Keys)[..r] == Ascending(c.space, net)[..r]
  {
    var m := s.peers;
    var r := Smaller(c.beta, |m.Keys|);
    var mine := Ascending(c.space, m.Keys);
    AscendingOrders(c.space, m.Keys);
    AscendingOrders(c.space, net);
    assert r > 0 ==> Helpful(c, net, mine[r - 1], Elements(mine)) by {
      if r > 0 {
        NearestIsQueried(c, m, r);
        assert mine[r - 1] in Matching(m, {Queried});
      }
    }
    NearestAreNearest(c, mine, Ascending(c.space, net), r);
  }

  lemma NearestIsQueried(c: Config, m: Peers, r: nat)
    requires c.Valid() && m.Keys <= c.space.universe
    requires Completed(c, m) && Matching(m, {Unreachable}) == {}
    requires 0 < r <= c.beta && r <= |Ascending(c.space, m.Keys)|
    ensures Ascending(c.space, m.Keys)[r - 1] in m
    ensures m[Ascending(c.space, m.Keys)[r - 1]] == Queried
  {
    AllLive(m);
    CompletedMeansBetaNearestQueried(c, m);
    var near := ClosestN(c.space, m, c.beta, LIVE);
    assert near[r - 1] == Ascending(c.space, m.Keys)[r - 1];
    assert near[r - 1] in near;
  }
}
