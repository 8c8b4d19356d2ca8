/** A lookup together with its follow-ups, as the program runs them. */
module LookupWithFollowUp {
  import opened Base
  import opened PeerOrder
  import opened Lookup
  import opened LookupResult
  import opened LookupQuery
  import FollowUp

  /** How the follow-ups went: there was nobody to send one to, they were called off before the first
      because the caller's context had ended or the stop function asked for an end, or they ran. */
  datatype Outcome =
    | NobodyPending
    | CalledOff(ctxDone: bool, stop: bool)
    | Ran(states: seq<FollowUp.State>, events: seq<FollowUp.Event>)

  /** The follow-ups ran, and nothing cut them short. */
  ghost predicate Undisturbed(o: Outcome) {
    match o
    case NobodyPending => true
    case CalledOff(_, _) => false
    case Ran(states, events) =>
      |states| == |events| + 1 && forall j | 0 <= j < |events| :: !FollowUp.CutsShort(states[j], events[j])
  }

  /** A run of the follow-ups that has returned, with none of them left. */
  ghost predicate RanToEnd(launched: seq<PeerId>, flag: bool,
                           states: seq<FollowUp.State>, events: seq<FollowUp.Event>)
  {
    && FollowUp.IsRun(launched, flag, states, events)
    && states[|events|].phase == FollowUp.Returned
    && states[|events|].running == multiset{}
  }

  method Collect(peers: seq<PeerId>, states: seq<PeerState>) returns (queryPeers: seq<PeerId>)
    requires |peers| == |states|
    ensures queryPeers == FollowUp.Pending(peers, states)
  {
    queryPeers := [];
    for i := 0 to |peers|
      invariant queryPeers == FollowUp.Pending(peers[..i], states[..i])
    {
      assert peers[..i + 1][..i] == peers[..i] && states[..i + 1][..i] == states[..i];
      if states[i] == Heard || states[i] == Waiting {
        queryPeers := queryPeers + [peers[i]];
      }
    }
    assert peers[..|peers|] == peers && states[..|states|] == states;
  }

  /** What the stop function answers: to the iterations of the lookup, before the follow-ups, and to each
      follow-up that completes. */
  datatype Answers = Answers(lookup: nat -> bool, before: bool, followUps: nat -> bool)

  /** What the outcome has to do with the peers left to query, with the stop function, and with the caller's
      context, which had ended or not when the lookup returned. */
  ghost predicate Outcomes(pending: seq<PeerId>, flag: bool, ctxDone: bool, answers: Answers, o: Outcome) {
    && (o == NobodyPending <==> pending == [])
    && (o.CalledOff? ==> (o.ctxDone || o.stop) && (ctxDone ==> o.ctxDone) && o.stop == answers.before)
    && (o.Ran? ==>
          && !ctxDone && !answers.before
          && RanToEnd(pending, flag, o.states, o.events)
          && FollowUp.Asked(o.states, o.events, answers.followUps))
  }

  /** Run a lookup and send its follow-ups, with these answers of the stop function. It returns, whatever the
      peers, the caller's context and the stop function do, and no worker and no follow-up is left then. With
      end the step that ended the lookup, the result is flagged as completed exactly if that step would have
      ended it without the stop function, or saw the context ended before any update was received; and if
      nothing disturbed the follow-ups. */
  method RunLookupWithFollowup(c: Config, answers: Answers)
    returns (r: Result, ghost states: seq<State>, ghost events: seq<Event>, ghost end: nat, ghost outcome: Outcome)
    requires c.Valid()
    ensures Ascends(c.space, r.peers) && |r.peers| <= c.bucketSize && |r.states| == |r.peers|
    ensures forall i | 0 <= i < |r.states| :: r.states[i] != Unreachable
    ensures r.completed ==> forall i | 0 <= i < |r.states| && i < c.beta :: r.states[i] == Queried
    ensures IsRun(c, states, events) && states[|events|].terminated && states[|events|].running == {}
    ensures Asked(events, answers.lookup)
    ensures r.peers == ClosestN(c.space, states[|events|].peers, c.bucketSize, LIVE)
    ensures end < |events| && !states[end].terminated && states[end + 1].terminated
    ensures r.completed <==>
            && (if events[end].Handle? then EndsAnyway(c, states[end]) else states[end].handled == 0)
            && Undisturbed(outcome)
    ensures Outcomes(FollowUp.Pending(r.peers, r.states), Completed(c, states[|events|].peers),
                     states[|events|].ctxDone, answers, outcome)
    ensures states[|events|].ctxDone && FollowUp.Pending(r.peers, r.states) != [] ==> !r.completed
  {
    var q := new Query(c);
    states, events := q.Run(answers.lookup);
    end := FindEnd(c, states, events);
    FlaggedIff(c, states, events, end);
    r := q.ConstructLookupResult();
    assert Inv(c, states[|events|]) by {
      RunKeepsInv(c, states, events);
    }
    ResultMeans(c, states[|events|].peers, r);
    var flag;
    flag, outcome := FollowThrough(r.peers, r.states, r.completed, q.ctxDone, answers);
    r := r.(completed := flag);
  }

  /** Send the follow-ups of a result and wait for them; the flag is the one to return. The caller's context
      may end later than the lookup. */
  method FollowThrough(
      peers: seq<PeerId>, states: seq<PeerState>, completed: bool, ctxDone: bool, answers: Answers)
    returns (flag: bool, ghost outcome: Outcome)
    requires |peers| == |states|
    ensures flag <==> completed && Undisturbed(outcome)
    ensures Outcomes(FollowUp.Pending(peers, states), completed, ctxDone, answers, outcome)
  {
    var queryPeers := Collect(peers, states);
    if |queryPeers| == 0 {
      return completed, NobodyPending;
    }
    var endsNow: bool := *;
    if ctxDone || endsNow || answers.before {
      return false, CalledOff(ctxDone || endsNow, answers.before);
    }
    var f := new FollowUp.FollowUps(queryPeers, completed, answers.followUps);
    ghost var fs, fe;
    fs, fe := f.Wait();
    return f.completed, Ran(fs, fe);
  }

  /** What a result's peers and states say: nearest first, none unreachable, and the beta nearest queried
      if the lookup completed. */
  lemma ResultMeans(c: Config, m: Peers, r: Result)
    requires c.Valid() && m.Keys <= c.space.universe
    requires r.peers == ClosestN(c.space, m, c.bucketSize, LIVE) && |r.states| == |r.peers|
    requires forall i | 0 <= i < |r.peers| :: r.peers[i] in m && r.states[i] == m[r.peers[i]]
    ensures Ascends(c.space, r.peers) && |r.peers| <= c.bucketSize
    ensures forall i | 0 <= i < |r.states| :: r.states[i] != Unreachable
    ensures Completed(c, m) ==> forall i | 0 <= i < |r.states| && i < c.beta :: r.states[i] == Queried
  {
    ClosestNShape(c.space, m, c.bucketSize, LIVE);
    forall i | 0 <= i < |r.peers|
      ensures r.states[i] != Unreachable
      ensures Completed(c, m) && i < c.beta ==> r.states[i] == Queried
    {
      assert r.peers[i] in Elements(r.peers);
      if Completed(c, m) && i < c.beta {
        BetaMeansCompleted(c, m);
        var near := ClosestN(c.space, m, c.beta, LIVE);
        assert r.peers[i] == Ascending(c.space, Matching(m, LIVE))[i] == near[i];
        assert near[i] in near;
      }
    }
  }

  /** If the caller's context ends before the lookup has received an update, its result has no peers, so
      there is nobody to follow up with and the wrong flag is returned as it is. */
  lemma WrongFlagIsReturned(c: Config, states: seq<State>, events: seq<Event>, i: nat)
    requires c.Valid() && IsRun(c, states, events) && i < |events|
    requires !states[i].terminated && states[i + 1].terminated && events[i].Abandon? && states[i].handled == 0
    ensures Completed(c, states[|events|].peers)
    ensures ClosestN(c.space, states[|events|].peers, c.bucketSize, LIVE) == []
    ensures FollowUp.Pending([], []) == []
  {
    FlaggedIff(c, states, events, i);
    ClosestNShape(c.space, states[|events|].peers, c.bucketSize, LIVE);
    assert Matching(states[|events|].peers, LIVE) == {};
  }
}
