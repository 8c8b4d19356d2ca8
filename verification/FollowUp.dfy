/** The follow-up queries that a finished lookup sends to its nearest unqueried peers: their
    goroutines, the channel they report on, and the goroutine that waits for them, in every
    interleaving. */
module FollowUp {
  import opened Base
  import opened PeerOrder

  /** The peers of a result that were heard of or are still being waited for. */
  function Pending(peers: seq<PeerId>, states: seq<PeerState>): (r: seq<PeerId>)
    requires |peers| == |states|
    ensures |r| <= |peers|
  {
    if peers == [] then []
    else
      var n := |peers| - 1;
      Pending(peers[..n], states[..n]) + (if states[n] == Heard || states[n] == Waiting then [peers[n]] else [])
  }

  lemma {:induction false} PendingMeaning(peers: seq<PeerId>, states: seq<PeerState>)
    requires |peers| == |states|
    ensures forall i | 0 <= i < |peers| && (states[i] == Heard || states[i] == Waiting) ::
              peers[i] in Pending(peers, states)
    ensures forall p | p in Pending(peers, states) ::
              exists i | 0 <= i < |peers| :: peers[i] == p && (states[i] == Heard || states[i] == Waiting)
  {
    if peers != [] {
      var n := |peers| - 1;
      PendingMeaning(peers[..n], states[..n]);
      assert forall i | 0 <= i < n :: peers[i] == peers[..n][i] && states[i] == states[..n][i];
    }
  }

  // ---------- The state machine ----------

  /** Selecting holds the index of the loop; draining is the receiving of what is left. */
  datatype Phase = Selecting(i: nat) | Draining | Returned

  /** running: the peers being queried; ch: the completions in the channel, which has room for those of
      all launched; received: those received; flag: the result's completed flag; cancelled: whether the
      caller's context has ended. */
  datatype State = State(
    launched: seq<PeerId>,
    running: multiset<PeerId>,
    ch: seq<PeerId>,
    received: multiset<PeerId>,
    phase: Phase,
    flag: bool,
    cancelled: bool)

  function Init(launched: seq<PeerId>, flag: bool): State {
    State(launched, multiset(launched), [], multiset{}, Selecting(0), flag, false)
  }

  datatype Event =
    | Complete(p: PeerId)     // a query ends and its goroutine sends the completion
    | Cancel                  // the caller's context ends
    | Receive(stop: bool)     // a completion is received, and the stop function answers
    | GiveUp                  // the wait ends with the context
    | Drain                   // a remaining completion is received

  predicate Enabled(s: State, e: Event) {
    match e
    case Complete(p) => p in s.running && |s.ch| < |s.launched|
    case Cancel => true
    case Receive(_) => s.phase.Selecting? && s.ch != []
    case GiveUp => s.phase.Selecting? && s.cancelled
    case Drain => s.phase == Draining && s.ch != []
  }

  function TakeOne(s: State): State
    requires s.ch != []
  {
    s.(ch := s.ch[1..], received := s.received + multiset{s.ch[0]})
  }

  /** The end of the loop: what is left is received unless the flag is still set. */
  function Leave(s: State, flag: bool): State {
    s.(flag := flag, phase := if !flag && |s.received| < |s.launched| then Draining else Returned)
  }

  function Next(s: State, e: Event): State
    requires Enabled(s, e)
  {
    match e
    case Complete(p) => s.(running := s.running - multiset{p}, ch := s.ch + [p])
    case Cancel => s.(cancelled := true)
    case Receive(stop) =>
      var last := s.phase.i + 1 >= |s.launched|;
      if stop then Leave(TakeOne(s), s.flag && last)
      else if last then Leave(TakeOne(s), s.flag)
      else TakeOne(s).(phase := Selecting(s.phase.i + 1))
    case GiveUp => Leave(s, false)
    case Drain =>
      var t := TakeOne(s);
      if |t.received| < |t.launched| then t else t.(phase := Returned)
  }

  predicate Step(s: State, e: Event, t: State) {
    Enabled(s, e) && t == Next(s, e)
  }

  ghost predicate IsRun(launched: seq<PeerId>, flag: bool, states: seq<State>, events: seq<Event>) {
    && launched != []
    && |states| == |events| + 1
    && states[0] == Init(launched, flag)
    && forall i | 0 <= i < |events| :: Step(states[i], events[i], states[i + 1])
  }

  /** Every completion is in exactly one place. */
  ghost predicate Conserved(s: State) {
    s.running + multiset(s.ch) + s.received == multiset(s.launched)
  }

  ghost predicate PhaseSound(s: State) {
    match s.phase
    case Selecting(i) => i < |s.launched| && |s.received| == i
    case Draining => |s.received| < |s.launched| && !s.flag
    case Returned => |s.received| == |s.launched|
  }

  ghost predicate Inv(s: State) {
    Conserved(s) && PhaseSound(s)
  }

  lemma Accounted(s: State)
    requires Conserved(s)
    ensures |s.running| + |s.ch| + |s.received| == |s.launched|
  {
    assert |s.running + multiset(s.ch) + s.received| == |multiset(s.launched)|;
  }

  lemma TakeKeeps(s: State)
    requires s.ch != [] && Conserved(s)
    ensures Conserved(TakeOne(s)) && |TakeOne(s).received| == |s.received| + 1
  {
    assert s.ch == [s.ch[0]] + s.ch[1..];
    assert multiset(s.ch) == multiset{s.ch[0]} + multiset(s.ch[1..]);
  }

  lemma CompleteKeeps(s: State, p: PeerId)
    requires Conserved(s) && p in s.running
    ensures Conserved(s.(running := s.running - multiset{p}, ch := s.ch + [p]))
  {
    assert multiset(s.ch + [p]) == multiset(s.ch) + multiset{p};
    assert s.running == (s.running - multiset{p}) + multiset{p};
  }

  lemma SameCompletions(s: State, t: State)
    requires Conserved(s)
    requires t.launched == s.launched && t.running == s.running && t.ch == s.ch && t.received == s.received
    ensures Conserved(t)
  {
  }

  lemma LeaveConserves(s: State, flag: bool)
    requires Conserved(s)
    ensures Conserved(Leave(s, flag)) && Leave(s, flag).launched == s.launched
  {
  }

  lemma ReceiveConserves(s: State, stop: bool)
    requires Conserved(s) && Enabled(s, Receive(stop))
    ensures Conserved(Next(s, Receive(stop))) && Next(s, Receive(stop)).launched == s.launched
  {
    var t, last := TakeOne(s), s.phase.i + 1 >= |s.launched|;
    TakeKeeps(s);
    if stop {
      LeaveConserves(t, s.flag && last);
    } else if last {
      LeaveConserves(t, s.flag);
    } else {
      SameCompletions(t, t.(phase := Selecting(s.phase.i + 1)));
    }
  }

  lemma DrainConserves(s: State)
    requires Conserved(s) && Enabled(s, Drain)
    ensures Conserved(Next(s, Drain)) && Next(s, Drain).launched == s.launched
  {
    TakeKeeps(s);
    SameCompletions(TakeOne(s), Next(s, Drain));
  }

  lemma NextConserves(s: State, e: Event)
    requires Conserved(s) && Enabled(s, e)
    ensures Conserved(Next(s, e)) && Next(s, e).launched == s.launched
  {
    match e
    case Complete(p) => CompleteKeeps(s, p);
    case Cancel =>
    case GiveUp => LeaveConserves(s, false);
    case Receive(stop) => ReceiveConserves(s, stop);
    case Drain => DrainConserves(s);
  }

  /** Taking a completion counts one more of at most all. */
  ghost predicate CanTake(s: State) {
    s.ch != [] ==> |TakeOne(s).received| == |s.received| + 1 <= |s.launched|
  }

  lemma ConservedCanTake(s: State)
    requires Conserved(s)
    ensures CanTake(s)
  {
    Accounted(s);
    if s.ch != [] {
      TakeKeeps(s);
    }
  }

  lemma NextPhaseSound(s: State, e: Event)
    requires PhaseSound(s) && CanTake(s) && Enabled(s, e)
    ensures PhaseSound(Next(s, e))
  {
  }

  lemma {:induction false} RunKeepsInv(
      launched: seq<PeerId>, flag: bool, states: seq<State>, events: seq<Event>, i: nat)
    requires IsRun(launched, flag, states, events) && i < |states|
    ensures Inv(states[i]) && states[i].launched == launched
  {
    if i > 0 {
      RunKeepsInv(launched, flag, states, events, i - 1);
      assert Step(states[i - 1], events[i - 1], states[i]);
      NextConserves(states[i - 1], events[i - 1]);
      ConservedCanTake(states[i - 1]);
      NextPhaseSound(states[i - 1], events[i - 1]);
    }
  }

  // ---------- What every run guarantees ----------

  /** In every state each follow-up that still runs can send its completion without blocking; and when
      the wait has returned none runs any more and every completion was received. */
  lemma NobodyLeftBehind(launched: seq<PeerId>, flag: bool, states: seq<State>, events: seq<Event>, i: nat)
    requires IsRun(launched, flag, states, events) && i < |states|
    ensures forall p | p in states[i].running :: Enabled(states[i], Complete(p))
    ensures states[i].phase == Returned ==>
              states[i].running == multiset{} && states[i].ch == [] && states[i].received == multiset(launched)
  {
    RunKeepsInv(launched, flag, states, events, i);
    var s := states[i];
    Accounted(s);
    if s.running != multiset{} {
      var p :| p in s.running;
      assert s.running[p] > 0;
      assert s.running == (s.running - multiset{p}) + multiset{p};
    }
  }

  /** Until the wait has returned, a follow-up can complete or a completion can be received. */
  lemma NeverStuck(s: State) returns (e: Event)
    requires Inv(s) && s.phase != Returned
    ensures Enabled(s, e) && e != Cancel && e != GiveUp
  {
    Accounted(s);
    if s.ch != [] {
      e := if s.phase == Draining then Drain else Receive(false);
    } else {
      assert s.running != multiset{};
      var p :| p in s.running;
      e := Complete(p);
    }
  }

  function Work(s: State): nat {
    3 * |s.running| + 2 * |s.ch| + (if s.phase.Selecting? then 1 else 0)
  }

  /** Every step but the end of the context leaves less work, so the wait returns. */
  lemma WorkShrinks(s: State, e: Event)
    requires Enabled(s, e) && e != Cancel
    ensures Work(Next(s, e)) < Work(s)
  {
    if e.Complete? {
      assert s.running == (s.running - multiset{e.p}) + multiset{e.p};
      assert |s.running| == |s.running - multiset{e.p}| + 1;
    }
  }

  /** The step cuts the follow-ups short: the context ends, or the stop function asks for an end before
      the last completion. */
  predicate CutsShort(s: State, e: Event) {
    e == GiveUp || (e == Receive(true) && s.phase.Selecting? && s.phase.i + 1 < |s.launched|)
  }

  /** The flag stays set exactly if it was and nothing cut the follow-ups short. */
  lemma {:induction false} FlagIff(launched: seq<PeerId>, flag: bool, states: seq<State>, events: seq<Event>, i: nat)
    requires IsRun(launched, flag, states, events) && i < |states|
    ensures states[i].flag <==> flag && forall j | 0 <= j < i :: !CutsShort(states[j], events[j])
  {
    if i > 0 {
      FlagIff(launched, flag, states, events, i - 1);
      assert Step(states[i - 1], events[i - 1], states[i]);
    }
  }

  /** Unless there is a completion to receive, a follow-up runs; and those that run have room to send. */
  lemma SomeoneRuns(launched: seq<PeerId>, flag: bool, states: seq<State>, events: seq<Event>)
    requires IsRun(launched, flag, states, events) && states[|events|].phase != Returned
    ensures states[|events|].ch == [] ==> states[|events|].running != multiset{}
    ensures forall p | p in states[|events|].running :: Enabled(states[|events|], Complete(p))
  {
    RunKeepsInv(launched, flag, states, events, |events|);
    NobodyLeftBehind(launched, flag, states, events, |events|);
    if states[|events|].ch == [] {
      var e := NeverStuck(states[|events|]);
    }
  }

  lemma ExtendRun(launched: seq<PeerId>, flag: bool, states: seq<State>, events: seq<Event>, e: Event, t: State)
    requires IsRun(launched, flag, states, events) && Step(states[|events|], e, t)
    ensures IsRun(launched, flag, states + [t], events + [e])
  {
    var states', events' := states + [t], events + [e];
    forall i | 0 <= i < |events'|
      ensures Step(states'[i], events'[i], states'[i + 1])
    {
      if i < |events| {
        assert Step(states[i], events[i], states[i + 1]);
      }
    }
  }

  // ---------- The wait as the program runs it ----------

  /** The stop function's answer to the n-th completion is the n-th one. */
  ghost predicate Asked(states: seq<State>, events: seq<Event>, answers: nat -> bool)
    requires |states| == |events| + 1
  {
    forall j | 0 <= j < |events| && events[j].Receive? ::
      states[j].phase.Selecting? && events[j].stop == answers(states[j].phase.i)
  }

  lemma AskedMore(states: seq<State>, events: seq<Event>, e: Event, t: State, answers: nat -> bool)
    requires |states| == |events| + 1 && Asked(states, events, answers)
    requires var s := states[|events|]; e.Receive? ==> s.phase.Selecting? && e.stop == answers(s.phase.i)
    ensures Asked(states + [t], events + [e], answers)
  {
  }

  class FollowUps {
    const queryPeers: seq<PeerId>
    ghost const flag0: bool
    /** What the stop function answers to each completion. */
    const answers: nat -> bool
    var completed: bool
    var followupsCompleted: nat
    // The channel, the goroutines, whether the caller's context has ended, and how far the wait is.
    var doneCh: seq<PeerId>
    var running: multiset<PeerId>
    var cancelled: bool
    var phase: Phase
    ghost var received: multiset<PeerId>

    ghost function View(): State
      reads this
    {
      State(queryPeers, running, doneCh, received, phase, completed, cancelled)
    }

    /** What happened so far is a run of the state machine that leads to the present state. */
    ghost predicate Follows(states: seq<State>, events: seq<Event>)
      reads this
    {
      && IsRun(queryPeers, flag0, states, events) && states[|events|] == View()
      && Asked(states, events, answers)
      && followupsCompleted == |received|
    }

    /** Launch the follow-ups. */
    constructor (queryPeers: seq<PeerId>, completed: bool, answers: nat -> bool)
      ensures this.queryPeers == queryPeers && flag0 == completed && this.answers == answers
      ensures View() == Init(queryPeers, completed) && followupsCompleted == 0
    {
      this.queryPeers, this.flag0, this.completed, this.answers := queryPeers, completed, completed, answers;
      followupsCompleted, doneCh, running, cancelled := 0, [], multiset(queryPeers), false;
      phase, received := Selecting(0), multiset{};
    }

    predicate MustWait()
      reads this
    {
      doneCh == [] && ((phase.Selecting? && !cancelled) || phase == Draining)
    }

    /** The follow-ups complete as they like, at least until the wait can go on; the context may end. */
    method Meanwhile(ghost states: seq<State>, ghost events: seq<Event>)
      returns (ghost states': seq<State>, ghost events': seq<Event>)
      requires Follows(states, events) && phase != Returned
      modifies this`running, this`doneCh, this`cancelled
      ensures Follows(states', events') && !MustWait()
      ensures Work(View()) <= old(Work(View()))
    {
      states', events' := states, events;
      var ends: bool := *;
      if ends {
        ExtendRun(queryPeers, flag0, states', events', Cancel, Next(View(), Cancel));
        AskedMore(states', events', Cancel, Next(View(), Cancel), answers);
        cancelled := true;
        states', events' := states' + [View()], events' + [Cancel];
      }
      var eager: bool := *;
      while MustWait() || (eager && running != multiset{})
        invariant Follows(states', events') && Work(View()) <= old(Work(View()))
        decreases Work(View())
      {
        states', events' := CompleteOne(states', events');
        eager := *;
      }
    }

    method CompleteOne(ghost states: seq<State>, ghost events: seq<Event>)
      returns (ghost states': seq<State>, ghost events': seq<Event>)
      requires Follows(states, events) && phase != Returned && (MustWait() || running != multiset{})
      modifies this`running, this`doneCh
      ensures Follows(states', events') && Work(View()) < old(Work(View()))
    {
      SomeoneRuns(queryPeers, flag0, states, events);
      ghost var s := View();
      var p :| p in running;
      ghost var e := Complete(p);
      running, doneCh := running - multiset{p}, doneCh + [p];
      WorkShrinks(s, e);
      ExtendRun(queryPeers, flag0, states, events, e, View());
      AskedMore(states, events, e, View(), answers);
      states', events' := states + [View()], events + [e];
    }

    /** Take a completion out of the channel. */
    method Take()
      requires doneCh != [] && followupsCompleted == |received|
      modifies this`doneCh, this`received, this`followupsCompleted
      ensures View() == TakeOne(old(View())) && followupsCompleted == |received|
    {
      received := received + multiset{doneCh[0]};
      doneCh := doneCh[1..];
      followupsCompleted := followupsCompleted + 1;
    }

    method EndLoop(flag: bool)
      requires followupsCompleted == |received|
      modifies this`completed, this`phase
      ensures View() == Leave(old(View()), flag)
    {
      completed := flag;
      phase := if !completed && followupsCompleted < |queryPeers| then Draining else Returned;
    }

    /** One round of the loop: a completion is received, or the context has ended. */
    method Select(ghost states: seq<State>, ghost events: seq<Event>)
      returns (ghost states': seq<State>, ghost events': seq<Event>)
      requires Follows(states, events) && phase.Selecting? && !MustWait()
      modifies this
      ensures Follows(states', events') && Work(View()) < old(Work(View()))
    {
      ghost var s := View();
      ghost var e;
      var stop := answers(phase.i);
      if {
        case doneCh != [] =>
          e := Receive(stop);
          var last := phase.i + 1 >= |queryPeers|;
          Take();
          if stop {
            EndLoop(completed && last);
          } else if last {
            EndLoop(completed);
          } else {
            phase := Selecting(phase.i + 1);
          }
        case cancelled =>
          e := GiveUp;
          EndLoop(false);
      }
      WorkShrinks(s, e);
      ExtendRun(queryPeers, flag0, states, events, e, View());
      AskedMore(states, events, e, View(), answers);
      states', events' := states + [View()], events + [e];
    }

    method DrainOne(ghost states: seq<State>, ghost events: seq<Event>)
      returns (ghost states': seq<State>, ghost events': seq<Event>)
      requires Follows(states, events) && phase == Draining && !MustWait()
      modifies this
      ensures Follows(states', events') && !phase.Selecting? && Work(View()) < old(Work(View()))
    {
      ghost var s := View();
      Take();
      if followupsCompleted >= |queryPeers| {
        phase := Returned;
      }
      WorkShrinks(s, Drain);
      ExtendRun(queryPeers, flag0, states, events, Drain, View());
      AskedMore(states, events, Drain, View(), answers);
      states', events' := states + [View()], events + [Drain];
    }

    /** Wait for the follow-ups. The wait returns, whatever they, the context and the stop function do;
        then none of them is left; and the flag is still set exactly if nothing cut them short. */
    method Wait() returns (ghost states: seq<State>, ghost events: seq<Event>)
      requires queryPeers != [] && View() == Init(queryPeers, flag0) && followupsCompleted == 0
      modifies this
      ensures Follows(states, events) && phase == Returned
      ensures running == multiset{} && doneCh == [] && received == multiset(queryPeers)
      ensures completed <==> flag0 && forall j | 0 <= j < |events| :: !CutsShort(states[j], events[j])
    {
      states, events := [View()], [];
      while phase.Selecting?
        invariant Follows(states, events)
        decreases Work(View())
      {
        states, events := Meanwhile(states, events);
        states, events := Select(states, events);
      }
      while phase == Draining
        invariant Follows(states, events) && !phase.Selecting?
        decreases Work(View())
      {
        states, events := Meanwhile(states, events);
        states, events := DrainOne(states, events);
      }
      NobodyLeftBehind(queryPeers, flag0, states, events, |events|);
      FlagIff(queryPeers, flag0, states, events, |events|);
    }
  }
}
