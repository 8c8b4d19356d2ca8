/** The crawler as a state machine: a loop that hands peers to a pool of workers over one
    channel and reads their results from another, in every interleaving. */
module Crawler {
  import opened Base

  type Addr = seq<byte>
  type Addrs = map<PeerId, set<Addr>>

  /** A starting peer with all addresses known for it. */
  datatype Start = Start(id: PeerId, addrs: set<Addr>)

  datatype Config = Config(parallelism: nat, start: seq<Start>, universe: set<PeerId>) {
    ghost predicate Valid() {
      forall i | 0 <= i < |start| :: start[i].id in universe
    }
  }

  /** What a dial of a peer came to: the peers it knows, with their addresses. Empty data stand for a
      failure; the loop does not tell the two apart. */
  datatype Result = Result(peer: PeerId, data: Addrs)

  /** The peers that some results are about. */
  function PeersOf(results: seq<Result>): multiset<PeerId> {
    if results == [] then multiset{}
    else PeersOf(results[..|results| - 1]) + multiset{results[|results| - 1].peer}
  }

  /** The starting peers that have an address, in order. */
  function Addressed(start: seq<Start>): seq<PeerId> {
    if start == [] then []
    else
      var n := |start| - 1;
      Addressed(start[..n]) + (if start[n].addrs == {} then [] else [start[n].id])
  }

  /** The entries of a peer among the starting ones that have an address. */
  function EntriesOf(start: seq<Start>, p: PeerId): set<nat> {
    set i: nat | i < |start| && start[i].id == p && start[i].addrs != {}
  }

  lemma {:induction false} AddressedCounts(start: seq<Start>, p: PeerId)
    ensures multiset(Addressed(start))[p] == |EntriesOf(start, p)|
  {
    if start != [] {
      var n := |start| - 1;
      AddressedCounts(start[..n], p);
      EntriesMore(start, p);
      assert n !in EntriesOf(start[..n], p);
    }
  }

  lemma EntriesMore(start: seq<Start>, p: PeerId)
    requires start != []
    ensures var n := |start| - 1;
            EntriesOf(start, p) ==
            EntriesOf(start[..n], p) + if start[n].id == p && start[n].addrs != {} then {n} else {}
  {
    assert forall i: nat | i < |start| - 1 :: start[..|start| - 1][i] == start[i];
  }

  /** Add addresses to those known for some peers. */
  function Merge(m: Addrs, more: Addrs): Addrs {
    map p | p in m.Keys + more.Keys ::
      (if p in m then m[p] else {}) + (if p in more then more[p] else {})
  }

  function StartAddrs(start: seq<Start>): Addrs {
    if start == [] then map[]
    else
      var n := |start| - 1;
      var front := StartAddrs(start[..n]);
      if start[n].addrs == {} then front else Merge(front, map[start[n].id := start[n].addrs])
  }

  /** jobs and results are the channels, each of capacity one; taken are the peers whose worker has yet
      to read their addresses, busy those being dialed, blocked those whose worker has a result to post.
      dialed, consumed, read and learned record what happened: every dial, the peers whose results were
      read, these results, and every address reported. */
  datatype State = State(
    toDial: seq<PeerId>,
    seen: set<PeerId>,
    queried: set<PeerId>,
    jobs: seq<PeerId>,
    taken: multiset<PeerId>,
    busy: multiset<PeerId>,
    blocked: multiset<PeerId>,
    results: seq<Result>,
    outstanding: int,
    addrs: Addrs,
    finished: bool,
    dialed: multiset<PeerId>,
    consumed: multiset<PeerId>,
    read: seq<Result>,
    learned: Addrs)

  function Init(c: Config): State {
    State(Addressed(c.start), Elements(Addressed(c.start)), {}, [], multiset{}, multiset{}, multiset{}, [], 0,
          StartAddrs(c.start), false, multiset{}, multiset{}, [], StartAddrs(c.start))
  }

  datatype Event =
    | Dispatch                      // the loop puts the next peer into the job channel
    | Take                          // a worker takes it
    | Look(p: PeerId)               // the worker reads the addresses and dials
    | Answered(p: PeerId)           // the dial is over
    | Post(p: PeerId, data: Addrs)  // the worker puts what the dial came to into the result channel
    | Consume(added: seq<PeerId>)   // the loop reads a result and queues the new peers
    | Finish                        // the loop ends

  /** The peers of an answer not seen before, in the order the answer's map is walked. */
  ghost predicate NewPeers(seen: set<PeerId>, answer: Addrs, added: seq<PeerId>) {
    NoDuplicates(added) && Elements(added) == answer.Keys - seen
  }

  predicate Looping(s: State) {
    !s.finished && (s.toDial != [] || s.outstanding > 0)
  }

  ghost predicate Enabled(c: Config, s: State, e: Event) {
    match e
    case Dispatch => Looping(s) && s.toDial != [] && |s.jobs| < 1
    case Take => s.jobs != [] && |s.taken| + |s.busy| + |s.blocked| < c.parallelism
    case Look(p) => p in s.taken
    case Answered(p) => p in s.busy
    case Post(p, data) => p in s.blocked && |s.results| < 1 && data.Keys <= c.universe
    case Consume(added) => Looping(s) && s.results != [] && NewPeers(s.seen, s.results[0].data, added)
    case Finish => !s.finished && !Looping(s)
  }

  /** The addresses after a peer answered: its own are dropped, those of the peers it named are
      added unless these were queried before. */
  function UpdateAddrs(addrs: Addrs, queried: set<PeerId>, source: PeerId, answer: Addrs): Addrs {
    Merge(addrs - {source}, map p | p in answer && p !in queried :: answer[p])
  }

  function ReadResult(s: State): State
    requires s.results != []
  {
    s.(results := s.results[1..],
       outstanding := s.outstanding - 1,
       consumed := s.consumed + multiset{s.results[0].peer},
       read := s.read + [s.results[0]])
  }

  function Learn(s: State, p: PeerId, answer: Addrs, added: seq<PeerId>): State {
    s.(toDial := s.toDial + added,
       seen := s.seen + answer.Keys,
       queried := s.queried + {p},
       addrs := UpdateAddrs(s.addrs, s.queried, p, answer),
       learned := Merge(s.learned, answer))
  }

  function ConsumeResult(s: State, added: seq<PeerId>): State
    requires s.results != []
  {
    var r := s.results[0];
    if r.data == map[] then ReadResult(s) else Learn(ReadResult(s), r.peer, r.data, added)
  }

  ghost function Next(c: Config, s: State, e: Event): State
    requires Enabled(c, s, e)
  {
    match e
    case Dispatch => s.(jobs := s.jobs + [s.toDial[0]], toDial := s.toDial[1..], outstanding := s.outstanding + 1)
    case Take => s.(jobs := s.jobs[1..], taken := s.taken + multiset{s.jobs[0]})
    case Look(p) =>
      s.(taken := s.taken - multiset{p}, busy := s.busy + multiset{p}, dialed := s.dialed + multiset{p})
    case Answered(p) => s.(busy := s.busy - multiset{p}, blocked := s.blocked + multiset{p})
    case Post(p, data) => s.(blocked := s.blocked - multiset{p}, results := s.results + [Result(p, data)])
    case Consume(added) => ConsumeResult(s, added)
    case Finish => s.(finished := true)
  }

  ghost predicate Step(c: Config, s: State, e: Event, t: State) {
    Enabled(c, s, e) && t == Next(c, s, e)
  }

  ghost predicate IsRun(c: Config, states: seq<State>, events: seq<Event>) {
    && |states| == |events| + 1
    && states[0] == Init(c)
    && forall i | 0 <= i < |events| :: Step(c, states[i], events[i], states[i + 1])
  }

  // ---------- The invariant ----------

  /** Where a peer's turn is: queued, handed over, taken, being dialed, waiting to post, posted, read. */
  function Turns(s: State): multiset<PeerId> {
    multiset(s.toDial) + multiset(s.jobs) + s.taken + s.busy + s.blocked + PeersOf(s.results) + s.consumed
  }

  /** The turns that peers are due: one per entry of the starting peers, and one for every
      other peer seen. */
  function Due(c: Config, s: State): multiset<PeerId> {
    multiset(Addressed(c.start)) + multiset(s.seen - Elements(Addressed(c.start)))
  }

  /** Every dial goes on, or its result is held, posted, or read. */
  predicate DialsAccounted(s: State) {
    s.dialed == s.busy + s.blocked + PeersOf(s.results) + s.consumed
  }

  predicate CountMatches(s: State) {
    s.outstanding == |s.jobs| + |s.taken| + |s.busy| + |s.blocked| + |s.results|
  }

  ghost predicate TurnsAccounted(c: Config, s: State) {
    && Turns(s) == Due(c, s)
    && DialsAccounted(s)
    && CountMatches(s)
    && Elements(Addressed(c.start)) <= s.seen <= c.universe
  }

  ghost predicate PoolSound(c: Config, s: State) {
    && |s.jobs| <= 1 && |s.results| <= 1
    && |s.taken| + |s.busy| + |s.blocked| <= c.parallelism
    && (c.parallelism == 0 ==> s.dialed == multiset{} && s.seen <= Elements(Addressed(c.start)))
    && (s.finished ==> s.toDial == [] && s.outstanding == 0)
  }

  /** What a posted result names belongs to the universe, and what a read one named has been seen. */
  ghost predicate AnswersSeen(c: Config, s: State) {
    && (forall i | 0 <= i < |s.results| :: s.results[i].data.Keys <= c.universe)
    && (forall i | 0 <= i < |s.read| :: s.read[i].data.Keys <= s.seen)
    && (forall p | p in s.queried :: p in s.consumed)
  }

  /** All addresses reported for a peer are kept until its own result is read. */
  ghost predicate AddrsKept(s: State) {
    && s.addrs.Keys <= s.seen && s.learned.Keys <= s.seen
    && forall p | p in s.seen && p !in s.consumed :: p in s.addrs && p in s.learned && s.addrs[p] == s.learned[p]
  }

  ghost predicate Inv(c: Config, s: State) {
    TurnsAccounted(c, s) && PoolSound(c, s) && AnswersSeen(c, s) && AddrsKept(s)
  }

  lemma {:induction false} AddressedInUniverse(c: Config, start: seq<Start>)
    requires forall i | 0 <= i < |start| :: start[i].id in c.universe
    ensures Elements(Addressed(start)) <= c.universe
    ensures StartAddrs(start).Keys == Elements(Addressed(start))
  {
    if start != [] {
      var n := |start| - 1;
      AddressedInUniverse(c, start[..n]);
      ElementsAppend(Addressed(start[..n]), start[n].id);
    }
  }

  lemma InitInv(c: Config)
    requires c.Valid()
    ensures Inv(c, Init(c))
  {
    AddressedInUniverse(c, c.start);
    var s := Init(c);
    assert s.seen - Elements(Addressed(c.start)) == {};
  }

  /** Taking the head off a sequence. */
  lemma HeadMultiset(s: seq<PeerId>)
    requires s != []
    ensures multiset(s) == multiset{s[0]} + multiset(s[1..])
  {
    assert s == [s[0]] + s[1..];
  }

  /** A peer that moves on is in one place as before. */
  lemma MoveOn(base: multiset<PeerId>, from: multiset<PeerId>, to: multiset<PeerId>, p: PeerId)
    requires p in from
    ensures base + (from - multiset{p}) + (to + multiset{p}) == base + from + to
    ensures (from - multiset{p}) + (to + multiset{p}) == from + to
    ensures |from - multiset{p}| == |from| - 1 && |to + multiset{p}| == |to| + 1
  {
    assert from == (from - multiset{p}) + multiset{p};
  }

  lemma DispatchTurns(c: Config, s: State)
    requires TurnsAccounted(c, s) && Enabled(c, s, Dispatch)
    ensures TurnsAccounted(c, Next(c, s, Dispatch))
  {
    var p := s.toDial[0];
    var t := Next(c, s, Dispatch);
    HeadMultiset(s.toDial);
    assert multiset(t.jobs) == multiset(s.jobs) + multiset{p};
    assert multiset(t.toDial) + multiset(t.jobs) == multiset(s.toDial) + multiset(s.jobs);
  }

  lemma TakeTurns(c: Config, s: State)
    requires TurnsAccounted(c, s) && Enabled(c, s, Take)
    ensures TurnsAccounted(c, Next(c, s, Take))
  {
    var p, t := s.jobs[0], Next(c, s, Take);
    assert p in multiset(s.jobs) && multiset(t.jobs) == multiset(s.jobs) - multiset{p} by {
      HeadMultiset(s.jobs);
    }
    MoveOn(multiset(s.toDial), multiset(s.jobs), s.taken, p);
  }

  lemma LookTurns(c: Config, s: State, p: PeerId)
    requires TurnsAccounted(c, s) && Enabled(c, s, Look(p))
    ensures TurnsAccounted(c, Next(c, s, Look(p)))
  {
    MoveOn(multiset(s.toDial) + multiset(s.jobs), s.taken, s.busy, p);
    DialMore(s.busy, s.blocked, PeersOf(s.results), s.consumed, p);
  }

  lemma DialMore(a: multiset<PeerId>, b: multiset<PeerId>, d: multiset<PeerId>, e: multiset<PeerId>, p: PeerId)
    ensures a + multiset{p} + b + d + e == a + b + d + e + multiset{p}
  {
  }

  lemma AnsweredTurns(c: Config, s: State, p: PeerId)
    requires TurnsAccounted(c, s) && Enabled(c, s, Answered(p))
    ensures TurnsAccounted(c, Next(c, s, Answered(p)))
  {
    MoveOn(multiset(s.toDial) + multiset(s.jobs) + s.taken, s.busy, s.blocked, p);
  }

  lemma PeersAppend(results: seq<Result>, r: Result)
    ensures PeersOf(results + [r]) == PeersOf(results) + multiset{r.peer}
  {
    assert (results + [r])[..|results|] == results;
  }

  lemma {:induction false} PeersHead(results: seq<Result>)
    requires results != []
    ensures PeersOf(results) == multiset{results[0].peer} + PeersOf(results[1..])
  {
    var n := |results| - 1;
    if n > 0 {
      PeersHead(results[..n]);
      assert results[..n][1..] == results[1..][..n - 1];
    }
  }

  lemma {:induction false} PeersMember(results: seq<Result>, p: PeerId) returns (i: nat)
    requires p in PeersOf(results)
    ensures i < |results| && results[i].peer == p
  {
    i := |results| - 1;
    if results[i].peer != p {
      i := PeersMember(results[..i], p);
    }
  }

  lemma PostTurns(c: Config, s: State, p: PeerId, data: Addrs)
    requires TurnsAccounted(c, s) && Enabled(c, s, Post(p, data))
    ensures TurnsAccounted(c, Next(c, s, Post(p, data)))
  {
    PeersAppend(s.results, Result(p, data));
    MoveOn(multiset(s.toDial) + multiset(s.jobs) + s.taken + s.busy, s.blocked, PeersOf(s.results), p);
    MoveOn(s.busy, s.blocked, PeersOf(s.results), p);
  }

  lemma MovesKeepTurns(c: Config, s: State, e: Event)
    requires TurnsAccounted(c, s) && Enabled(c, s, e) && !e.Consume?
    ensures TurnsAccounted(c, Next(c, s, e))
  {
    match e
    case Dispatch => DispatchTurns(c, s);
    case Take => TakeTurns(c, s);
    case Look(p) => LookTurns(c, s, p);
    case Answered(p) => AnsweredTurns(c, s, p);
    case Post(p, data) => PostTurns(c, s, p, data);
    case Finish =>
  }

  lemma MovesKeepPool(c: Config, s: State, e: Event)
    requires PoolSound(c, s) && Enabled(c, s, e) && !e.Consume? && (e == Finish ==> CountMatches(s))
    ensures PoolSound(c, Next(c, s, e))
  {
    match e
    case Look(p) => MoveOn(multiset{}, s.taken, s.busy, p);
    case Answered(p) => MoveOn(multiset{}, s.busy, s.blocked, p);
    case Post(p, _) => MoveOn(multiset{}, s.blocked, multiset{}, p);
    case _ =>
  }

  lemma ConsumePool(c: Config, s: State, added: seq<PeerId>)
    requires PoolSound(c, s) && DialsAccounted(s) && Enabled(c, s, Consume(added))
    ensures PoolSound(c, ConsumeResult(s, added))
  {
    assert c.parallelism > 0 by {
      PeersHead(s.results);
      assert s.results[0].peer in s.dialed;
    }
  }

  lemma MovesKeepRest(c: Config, s: State, e: Event)
    requires AnswersSeen(c, s) && AddrsKept(s) && Enabled(c, s, e) && !e.Consume?
    ensures AnswersSeen(c, Next(c, s, e)) && AddrsKept(Next(c, s, e))
  {
  }

  lemma {:induction false} DistinctMultiset(added: seq<PeerId>)
    requires NoDuplicates(added)
    ensures forall p :: multiset(added)[p] == if p in Elements(added) then 1 else 0
    ensures multiset(added) == multiset(Elements(added))
  {
    if added != [] {
      var n := |added| - 1;
      var front := added[..n];
      DistinctMultiset(front);
      assert added == front + [added[n]];
      assert multiset(added) == multiset(front) + multiset{added[n]};
      ElementsAppend(front, added[n]);
    }
  }

  /** A peer with a posted result has been seen. */
  lemma ResultSeen(c: Config, s: State)
    requires TurnsAccounted(c, s) && s.results != []
    ensures s.results[0].peer in s.seen
  {
    PeersHead(s.results);
    assert s.results[0].peer in Due(c, s);
  }

  lemma ReadTurns(c: Config, s: State)
    requires TurnsAccounted(c, s) && s.results != []
    ensures TurnsAccounted(c, ReadResult(s))
  {
    var t := ReadResult(s);
    PeersHead(s.results);
    assert PeersOf(t.results) + t.consumed == PeersOf(s.results) + s.consumed;
    assert Turns(t) == Turns(s);
  }

  /** t is s with some peers that were not seen before queued. */
  ghost predicate Queues(s: State, t: State, added: seq<PeerId>) {
    && NoDuplicates(added) && s.seen !! Elements(added)
    && t.toDial == s.toDial + added && t.seen == s.seen + Elements(added)
    && t.jobs == s.jobs && t.taken == s.taken && t.busy == s.busy && t.blocked == s.blocked && t.results == s.results
    && t.outstanding == s.outstanding && t.finished == s.finished
    && t.dialed == s.dialed && t.consumed == s.consumed
  }

  lemma LearnQueues(s: State, p: PeerId, answer: Addrs, added: seq<PeerId>)
    requires NewPeers(s.seen, answer, added)
    ensures Queues(s, Learn(s, p, answer, added), added)
  {
  }

  lemma QueuesTurns(c: Config, s: State, t: State, added: seq<PeerId>)
    requires TurnsAccounted(c, s) && Queues(s, t, added) && t.seen <= c.universe
    ensures TurnsAccounted(c, t)
  {
    assert multiset(t.toDial) == multiset(s.toDial) + multiset(added);
    assert Turns(t) == Turns(s) + multiset(added);
    DueGrows(c, s, t, added);
  }

  lemma ConsumeTurns(c: Config, s: State, added: seq<PeerId>)
    requires TurnsAccounted(c, s) && AnswersSeen(c, s) && Enabled(c, s, Consume(added))
    ensures TurnsAccounted(c, ConsumeResult(s, added))
  {
    ReadTurns(c, s);
    if s.results[0].data != map[] {
      LearnQueues(ReadResult(s), s.results[0].peer, s.results[0].data, added);
      QueuesTurns(c, ReadResult(s), ConsumeResult(s, added), added);
    }
  }

  lemma DueGrows(c: Config, s: State, t: State, added: seq<PeerId>)
    requires Elements(Addressed(c.start)) <= s.seen
    requires NoDuplicates(added) && t.seen == s.seen + Elements(added) && s.seen !! Elements(added)
    ensures Due(c, t) == Due(c, s) + multiset(added)
  {
    var start := Elements(Addressed(c.start));
    DistinctMultiset(added);
    assert t.seen - start == (s.seen - start) + Elements(added);
    assert multiset(t.seen - start) == multiset(s.seen - start) + multiset(Elements(added));
  }

  lemma ConsumeAnswers(c: Config, s: State, added: seq<PeerId>)
    requires AnswersSeen(c, s) && s.results != []
    ensures AnswersSeen(c, ConsumeResult(s, added))
  {
  }

  lemma LearnAddrs(s: State, p: PeerId, data: Addrs, added: seq<PeerId>)
    requires AddrsKept(s) && p in s.consumed && forall q | q in s.queried :: q in s.consumed
    ensures AddrsKept(Learn(s, p, data, added))
  {
    assert Learn(s, p, data, added).consumed == s.consumed;
  }

  lemma ConsumeAddrs(c: Config, s: State, added: seq<PeerId>)
    requires AnswersSeen(c, s) && AddrsKept(s) && s.results != []
    ensures AddrsKept(ConsumeResult(s, added))
  {
    assert AddrsKept(ReadResult(s));
    if s.results[0].data != map[] {
      LearnAddrs(ReadResult(s), s.results[0].peer, s.results[0].data, added);
    }
  }

  lemma NextKeepsInv(c: Config, s: State, e: Event)
    requires c.Valid() && Inv(c, s) && Enabled(c, s, e)
    ensures Inv(c, Next(c, s, e))
  {
    if e.Consume? {
      ConsumePool(c, s, e.added);
      ConsumeTurns(c, s, e.added);
      ConsumeAnswers(c, s, e.added);
      ConsumeAddrs(c, s, e.added);
    } else {
      MovesKeepTurns(c, s, e);
      MovesKeepPool(c, s, e);
      MovesKeepRest(c, s, e);
    }
  }

  lemma StepKeepsInv(c: Config, s: State, e: Event, t: State)
    requires c.Valid() && Inv(c, s) && Step(c, s, e, t)
    ensures Inv(c, t)
  {
    NextKeepsInv(c, s, e);
  }

  lemma InvStays(c: Config, states: seq<State>, events: seq<Event>, i: nat)
    requires c.Valid() && IsRun(c, states, events) && 0 < i < |states| && Inv(c, states[i - 1])
    ensures Inv(c, states[i])
  {
    StepKeepsInv(c, states[i - 1], events[i - 1], states[i]);
  }

  lemma {:induction false} RunKeepsInv(c: Config, states: seq<State>, events: seq<Event>, i: nat)
    requires c.Valid() && IsRun(c, states, events) && i < |states|
    ensures Inv(c, states[i])
  {
    if i == 0 {
      InitInv(c);
    } else {
      RunKeepsInv(c, states, events, i - 1);
      InvStays(c, states, events, i);
    }
  }

  // ---------- What every run guarantees ----------

  /** A set of peers that holds the addressed starting peers and whatever its members named in some
      results. */
  ghost predicate Closed(c: Config, results: seq<Result>, s: set<PeerId>) {
    && Elements(Addressed(c.start)) <= s
    && forall i | 0 <= i < |results| && results[i].peer in s :: results[i].data.Keys <= s
  }

  lemma ReadMore(c: Config, results: seq<Result>, r: Result, closed: set<PeerId>)
    requires Closed(c, results + [r], closed)
    ensures Closed(c, results, closed) && (r.peer in closed ==> r.data.Keys <= closed)
  {
    assert forall i | 0 <= i < |results| :: (results + [r])[i] == results[i];
    assert (results + [r])[|results|] == r;
  }

  /** Results are read one after the other, and what was read stays. */
  lemma StepSeesClosed(c: Config, s: State, e: Event, t: State, closed: set<PeerId>)
    requires s.results != [] ==> s.results[0].peer in s.seen
    requires Step(c, s, e, t) && Closed(c, t.read, closed)
    ensures Closed(c, s.read, closed)
    ensures s.seen <= closed ==> t.seen <= closed
  {
    if e.Consume? {
      ReadMore(c, s.read, s.results[0], closed);
    }
  }

  lemma PostedIsSeen(c: Config, states: seq<State>, events: seq<Event>, i: nat)
    requires c.Valid() && IsRun(c, states, events) && i < |states|
    ensures states[i].results != [] ==> states[i].results[0].peer in states[i].seen
  {
    RunKeepsInv(c, states, events, i);
    if states[i].results != [] {
      ResultSeen(c, states[i]);
    }
  }

  lemma RunSeesClosed(c: Config, states: seq<State>, events: seq<Event>, i: nat, closed: set<PeerId>)
    requires c.Valid() && IsRun(c, states, events) && 0 < i < |states| && Closed(c, states[i].read, closed)
    ensures Closed(c, states[i - 1].read, closed)
    ensures states[i - 1].seen <= closed ==> states[i].seen <= closed
  {
    PostedIsSeen(c, states, events, i - 1);
    StepSeesClosed(c, states[i - 1], events[i - 1], states[i], closed);
  }

  /** Whatever was seen is in every set closed under the results read so far. */
  lemma {:induction false} SeenInEveryClosedSet(
      c: Config, states: seq<State>, events: seq<Event>, i: nat, closed: set<PeerId>)
    requires c.Valid() && IsRun(c, states, events) && i < |states| && Closed(c, states[i].read, closed)
    ensures states[i].seen <= closed
  {
    if i > 0 {
      RunSeesClosed(c, states, events, i, closed);
      SeenInEveryClosedSet(c, states, events, i - 1, closed);
    } else {
      assert states[0].seen == Elements(Addressed(c.start));
    }
  }

  /** The consumed peers are those of the results read. */
  lemma {:induction false} ReadPeers(c: Config, states: seq<State>, events: seq<Event>, i: nat)
    requires IsRun(c, states, events) && i < |states|
    ensures PeersOf(states[i].read) == states[i].consumed
  {
    if i > 0 {
      ReadPeers(c, states, events, i - 1);
      assert Step(c, states[i - 1], events[i - 1], states[i]);
      if events[i - 1].Consume? {
        PeersAppend(states[i - 1].read, states[i - 1].results[0]);
      }
    }
  }

  /** No worker holds a peer, and none waits to post. */
  predicate AtRest(s: State) {
    s.jobs == [] && s.taken == multiset{} && s.busy == multiset{} && s.blocked == multiset{} && s.results == []
  }

  lemma DueCount(c: Config, s: State, p: PeerId)
    requires p in s.seen
    ensures Due(c, s)[p] == if EntriesOf(c.start, p) != {} then |EntriesOf(c.start, p)| else 1
  {
    AddressedCounts(c.start, p);
    var entries := EntriesOf(c.start, p);
    assert p in Elements(Addressed(c.start)) <==> p in multiset(Addressed(c.start));
  }

  /** When the crawl ends, whatever each dial came to, the peers dialed are exactly the least set closed under
      the results read; a starting peer was dialed once per entry and every other one once; the result of
      every dial was read; and no worker holds a peer or waits to post. */
  lemma CrawlIsClosure(c: Config, states: seq<State>, events: seq<Event>, closed: set<PeerId>)
    requires c.Valid() && IsRun(c, states, events) && states[|events|].finished
    requires Closed(c, states[|events|].read, closed)
    ensures var s := states[|events|];
            && Closed(c, s.read, s.seen) && s.seen <= closed
            && (forall p :: p in s.dialed <==> p in s.seen)
            && s.dialed == Due(c, s) == PeersOf(s.read)
            && (forall p | p in s.seen ::
                  s.dialed[p] == if EntriesOf(c.start, p) != {} then |EntriesOf(c.start, p)| else 1)
            && AtRest(s)
  {
    var s := states[|events|];
    assert s.seen <= closed by {
      SeenInEveryClosedSet(c, states, events, |events|, closed);
    }
    ReadPeers(c, states, events, |events|);
    RunKeepsInv(c, states, events, |events|);
    AllDialed(c, s);
    DueMembers(c, s);
    forall p | p in s.seen
      ensures Due(c, s)[p] == if EntriesOf(c.start, p) != {} then |EntriesOf(c.start, p)| else 1
    {
      DueCount(c, s, p);
    }
  }

  ghost predicate Conform(results: seq<Result>, answer: PeerId -> Addrs) {
    forall i | 0 <= i < |results| :: results[i].data == answer(results[i].peer)
  }

  lemma ClosedUnderAnswers(c: Config, results: seq<Result>, answer: PeerId -> Addrs, closed: set<PeerId>)
    requires Conform(results, answer) && Elements(Addressed(c.start)) <= closed
    requires forall p | p in closed :: answer(p).Keys <= closed
    ensures Closed(c, results, closed)
  {
  }

  lemma AnswersAreSeen(c: Config, s: State, answer: PeerId -> Addrs)
    requires Conform(s.read, answer) && Closed(c, s.read, s.seen)
    requires forall p | p in s.seen :: p in PeersOf(s.read)
    ensures forall p | p in s.seen :: answer(p).Keys <= s.seen
  {
    forall p | p in s.seen
      ensures answer(p).Keys <= s.seen
    {
      var i := PeersMember(s.read, p);
      assert s.read[i].data.Keys <= s.seen;
    }
  }

  /** If every peer always answers alike, the peers dialed are the least set that holds the addressed
      starting peers and whatever its members answer. */
  lemma CrawlFollowsAnswers(
      c: Config, states: seq<State>, events: seq<Event>, answer: PeerId -> Addrs, closed: set<PeerId>)
    requires c.Valid() && IsRun(c, states, events) && states[|events|].finished
    requires Conform(states[|events|].read, answer)
    requires Elements(Addressed(c.start)) <= closed && forall p | p in closed :: answer(p).Keys <= closed
    ensures var s := states[|events|];
            && Elements(Addressed(c.start)) <= s.seen <= closed
            && (forall p :: p in s.dialed <==> p in s.seen)
            && forall p | p in s.seen :: answer(p).Keys <= s.seen
  {
    var s := states[|events|];
    ClosedUnderAnswers(c, s.read, answer, closed);
    CrawlIsClosure(c, states, events, closed);
    AnswersAreSeen(c, s, answer);
  }

  lemma AllDialed(c: Config, s: State)
    requires TurnsAccounted(c, s) && PoolSound(c, s) && s.finished
    ensures AtRest(s)
    ensures s.dialed == Due(c, s) && s.consumed == s.dialed
  {
  }

  lemma DueMembers(c: Config, s: State)
    requires TurnsAccounted(c, s)
    ensures forall p :: p in Due(c, s) <==> p in s.seen
  {
  }

  /** Each peer is dialed at most once exactly when no starting peer is listed twice. */
  lemma DialedOnceIffNoDuplicateStart(c: Config, states: seq<State>, events: seq<Event>)
    requires c.Valid() && IsRun(c, states, events) && states[|events|].finished
    ensures (forall p :: states[|events|].dialed[p] <= 1) <==> NoDuplicates(Addressed(c.start))
  {
    var s := states[|events|];
    assert s.dialed == Due(c, s) by {
      RunKeepsInv(c, states, events, |events|);
      AllDialed(c, s);
    }
    var a := Addressed(c.start);
    if NoDuplicates(a) {
      DistinctMultiset(a);
      assert forall p :: Due(c, s)[p] <= 1;
    } else {
      var i, j :| 0 <= i < j < |a| && a[i] == a[j];
      TwiceInMultiset(a, i, j);
      assert Due(c, s)[a[i]] >= 2;
    }
  }

  ghost predicate InStart(start: seq<Start>, p: PeerId, a: Addr) {
    exists n | 0 <= n < |start| :: start[n].id == p && a in start[n].addrs
  }

  /** The step reads a result that names the address. */
  predicate InAnswer(s: State, e: Event, p: PeerId, a: Addr) {
    e.Consume? && s.results != [] && Known(s.results[0].data, p, a)
  }

  predicate Known(m: Addrs, p: PeerId, a: Addr) {
    p in m && a in m[p]
  }

  /** The starting peers or a result read before the i-th step name the address. */
  ghost predicate Reported(c: Config, states: seq<State>, events: seq<Event>, i: nat, p: PeerId, a: Addr)
    requires i <= |events| && |states| == |events| + 1
  {
    InStart(c.start, p, a) || exists j | 0 <= j < i :: InAnswer(states[j], events[j], p, a)
  }

  lemma {:induction false} StartKnown(start: seq<Start>, p: PeerId, a: Addr)
    ensures Known(StartAddrs(start), p, a) <==> InStart(start, p, a)
  {
    if start != [] {
      var n := |start| - 1;
      StartKnown(start[..n], p, a);
      assert InStart(start, p, a) <==> InStart(start[..n], p, a) || (start[n].id == p && a in start[n].addrs) by {
        assert forall k | 0 <= k < n :: start[k] == start[..n][k];
      }
    }
  }

  lemma MergeKnows(m: Addrs, more: Addrs, p: PeerId, a: Addr)
    ensures Known(Merge(m, more), p, a) <==> Known(m, p, a) || Known(more, p, a)
  {
  }

  lemma StepLearns(c: Config, s: State, e: Event, p: PeerId, a: Addr)
    requires Enabled(c, s, e)
    ensures Known(Next(c, s, e).learned, p, a) <==> Known(s.learned, p, a) || InAnswer(s, e, p, a)
  {
    if e.Consume? {
      MergeKnows(s.learned, s.results[0].data, p, a);
    }
  }

  lemma {:induction false} LearnedIsReported(
      c: Config, states: seq<State>, events: seq<Event>, i: nat, p: PeerId, a: Addr)
    requires IsRun(c, states, events) && i < |states|
    ensures Known(states[i].learned, p, a) <==> Reported(c, states, events, i, p, a)
  {
    if i == 0 {
      StartKnown(c.start, p, a);
    } else {
      var s, e, t := states[i - 1], events[i - 1], states[i];
      LearnedIsReported(c, states, events, i - 1, p, a);
      assert Step(c, s, e, t);
      StepLearns(c, s, e, p, a);
    }
  }

  lemma UndialedIsUnread(c: Config, s: State, p: PeerId)
    requires Inv(c, s) && NoDuplicates(Addressed(c.start)) && (p in s.jobs || p in s.taken || p in s.busy)
    ensures p in s.seen && p !in s.consumed
  {
    DistinctMultiset(Addressed(c.start));
    assert Turns(s)[p] == Due(c, s)[p] <= 1;
    assert p in s.jobs ==> multiset(s.jobs)[p] > 0;
    DueMembers(c, s);
  }

  /** In every state in which a worker has a peer, the addresses known for it are exactly those that the
      starting peers and the results read so far name. So whenever the worker reads them, it dials with
      all of them. */
  lemma DialUsesAllAddresses(c: Config, states: seq<State>, events: seq<Event>, i: nat, p: PeerId, a: Addr)
    requires c.Valid() && IsRun(c, states, events) && i < |states|
    requires p in states[i].jobs || p in states[i].taken || p in states[i].busy
    requires NoDuplicates(Addressed(c.start))
    ensures Known(states[i].addrs, p, a) <==> Reported(c, states, events, i, p, a)
  {
    RunKeepsInv(c, states, events, i);
    UndialedIsUnread(c, states[i], p);
    LearnedIsReported(c, states, events, i, p, a);
  }

  /** Whether a crawl can make progress: it has a worker, or nothing to dial. */
  predicate Startable(c: Config) {
    c.parallelism > 0 || Addressed(c.start) == []
  }

  /** Without workers and without peers to dial there is nothing to loop for. */
  lemma NothingToLoopFor(c: Config, s: State)
    requires c.parallelism == 0 && Addressed(c.start) == [] && Inv(c, s)
    ensures !Looping(s)
  {
    assert s.seen == {} && Due(c, s) == multiset{};
    assert |Turns(s)| == |multiset(s.toDial)| + |multiset(s.jobs)| + |s.taken| + |s.busy| + |s.blocked|
                         + |PeersOf(s.results)| + |s.consumed|;
  }

  /** Such a crawl is never stuck before its end. */
  lemma NeverStuck(c: Config, s: State) returns (e: Event)
    requires c.Valid() && Startable(c) && Inv(c, s) && !s.finished
    ensures Enabled(c, s, e)
  {
    if !Looping(s) {
      e := Finish;
    } else if s.results != [] {
      var added := Enumerate(s.results[0].data.Keys - s.seen);
      e := Consume(added);
    } else if s.blocked != multiset{} {
      var p :| p in s.blocked;
      e := Post(p, map[]);
    } else if s.busy != multiset{} {
      var p :| p in s.busy;
      e := Answered(p);
    } else if s.taken != multiset{} {
      var p :| p in s.taken;
      e := Look(p);
    } else if s.jobs != [] {
      if c.parallelism == 0 {
        NothingToLoopFor(c, s);
      }
      e := Take;
    } else {
      assert |s.taken| == 0 && |s.busy| == 0 && |s.blocked| == 0;
      e := Dispatch;
    }
  }

  /** A run that cannot go on. */
  ghost predicate IsMaximal(c: Config, states: seq<State>, events: seq<Event>) {
    IsRun(c, states, events) && forall e :: !Enabled(c, states[|events|], e)
  }

  /** All runs that cannot go on have ended exactly if the crawl has a worker or nothing to dial. As
      every step leaves less work, every run comes to a point where it cannot go on. */
  lemma EndsIff(c: Config)
    requires c.Valid()
    ensures (forall states: seq<State>, events: seq<Event> | IsMaximal(c, states, events) :: states[|events|].finished)
            <==> Startable(c)
  {
    if Startable(c) {
      forall states: seq<State>, events: seq<Event> | IsMaximal(c, states, events)
        ensures states[|events|].finished
      {
        RunKeepsInv(c, states, events, |events|);
        if !states[|events|].finished {
          var e := NeverStuck(c, states[|events|]);
        }
      }
    } else {
      var s := Init(c);
      var t := Next(c, s, Dispatch);
      var states, events := [s, t], [Dispatch];
      assert Step(c, states[0], events[0], states[1]);
      assert IsMaximal(c, states, events);
    }
  }

  lemma Enumerate(s: set<PeerId>) returns (r: seq<PeerId>)
    ensures NoDuplicates(r) && Elements(r) == s
  {
    if s == {} {
      r := [];
    } else {
      var p :| p in s;
      var rest := Enumerate(s - {p});
      r := [p] + rest;
      ElementsCons(p, rest);
      assert forall i | 0 <= i < |rest| :: rest[i] in Elements(rest);
    }
  }

  /** Without workers, a crawl that has a peer to dial never ends. */
  lemma NoWorkersNoEnd(c: Config, states: seq<State>, events: seq<Event>, i: nat)
    requires c.Valid() && c.parallelism == 0 && Addressed(c.start) != []
    requires IsRun(c, states, events) && i < |states|
    ensures !states[i].finished
  {
    RunKeepsInv(c, states, events, i);
    var s := states[i];
    assert Addressed(c.start)[0] in Due(c, s);
    if s.finished {
      AllDialed(c, s);
    }
  }

  /** The work left to a crawl. */
  function Work(c: Config, s: State): int {
    6 * (|c.universe - s.seen| + |s.toDial|) + 5 * |s.jobs| + 4 * |s.taken| + 3 * |s.busy| + 2 * |s.blocked|
    + |s.results| + (if s.finished then 0 else 1)
  }

  lemma LoopWork(c: Config, s: State, e: Event)
    requires Enabled(c, s, e) && (e == Dispatch || e == Take || e == Finish)
    ensures Work(c, Next(c, s, e)) < Work(c, s)
  {
  }

  lemma WorkerWork(c: Config, s: State, e: Event)
    requires Enabled(c, s, e) && (e.Look? || e.Answered? || e.Post?)
    ensures Work(c, Next(c, s, e)) < Work(c, s)
  {
  }

  lemma WorkNonnegative(c: Config, s: State)
    ensures 0 <= Work(c, s)
  {
  }

  /** Each step leaves less work, so every crawl ends. */
  lemma WorkShrinks(c: Config, s: State, e: Event)
    requires c.Valid() && Inv(c, s) && Enabled(c, s, e)
    ensures 0 <= Work(c, Next(c, s, e)) < Work(c, s)
  {
    WorkNonnegative(c, Next(c, s, e));
    if e.Consume? {
      ConsumeWork(c, s, e.added);
    } else if e.Look? || e.Answered? || e.Post? {
      WorkerWork(c, s, e);
    } else {
      LoopWork(c, s, e);
    }
  }

  lemma ConsumeWork(c: Config, s: State, added: seq<PeerId>)
    requires TurnsAccounted(c, s) && AnswersSeen(c, s) && Enabled(c, s, Consume(added))
    ensures Work(c, ConsumeResult(s, added)) < Work(c, s)
  {
    if s.results[0].data != map[] {
      LearnQueues(ReadResult(s), s.results[0].peer, s.results[0].data, added);
      QueuesWork(c, ReadResult(s), ConsumeResult(s, added), added);
    }
  }

  lemma QueuesWork(c: Config, s: State, t: State, added: seq<PeerId>)
    requires Queues(s, t, added) && t.seen <= c.universe
    ensures Work(c, t) == Work(c, s)
  {
    NoDuplicatesCardinality(added);
    assert c.universe - s.seen == (c.universe - t.seen) + Elements(added);
    assert |c.universe - s.seen| == |c.universe - t.seen| + |Elements(added)|;
  }
}
