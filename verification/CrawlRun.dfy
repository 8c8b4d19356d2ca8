/** The crawl as the program runs it, shown to follow the state machine of module Crawler. */
module CrawlRun {
  import opened Base
  import opened Crawler

  lemma MergeOne(m: Addrs, p: PeerId, addrs: set<Addr>)
    ensures Merge(m, map[p := addrs]) == m[p := (if p in m then m[p] else {}) + addrs]
  {
    assert forall q | q in m :: m[q] + {} == m[q];
  }

  lemma MergeNone(m: Addrs)
    ensures Merge(m, map[]) == m
  {
    assert forall q | q in m :: m[q] + {} == m[q];
  }

  lemma MergeMore(m: Addrs, more: Addrs, p: PeerId, addrs: set<Addr>)
    requires p !in more
    ensures Merge(m, more[p := addrs]) == Merge(Merge(m, more), map[p := addrs])
  {
    MergeOne(Merge(m, more), p, addrs);
    if p in m {
      assert m[p] + {} == m[p];
    }
  }

  /** The addresses that the crawl has learned, edited in place. */
  class PeerAddrs {
    var peers: Addrs

    constructor ()
      ensures peers == map[]
    {
      peers := map[];
    }

    method AddPeerAddrs(p: PeerId, addrs: set<Addr>)
      modifies this
      ensures peers == Merge(old(peers), map[p := addrs])
    {
      MergeOne(peers, p, addrs);
      if p !in peers {
        peers := peers[p := {}];
      }
      peers := peers[p := peers[p] + addrs];
    }

    method RemoveSourceAndAddPeers(source: PeerId, more: Addrs)
      modifies this
      ensures peers == Merge(old(peers) - {source}, more)
    {
      peers := peers - {source};
      ghost var base := peers;
      var todo := more.Keys;
      MergeNone(base);
      assert (map q | q in more && q !in todo :: more[q]) == map[];
      while todo != {}
        invariant todo <= more.Keys
        invariant peers == Merge(base, map q | q in more && q !in todo :: more[q])
        decreases todo
      {
        var q :| q in todo;
        ghost var done := map r | r in more && r !in todo :: more[r];
        MergeMore(base, done, q, more[q]);
        AddPeerAddrs(q, more[q]);
        todo := todo - {q};
        assert (map r | r in more && r !in todo :: more[r]) == done[q := more[q]];
      }
      assert (map q | q in more && q !in todo :: more[q]) == more;
    }

    method PeerInfo(p: PeerId) returns (addrs: set<Addr>)
      ensures forall a :: a in addrs <==> Known(peers, p, a)
    {
      addrs := if p in peers then peers[p] else {};
    }
  }

  /** The part of an answer walked so far, of which addrsToUpdate are the addresses to add and
      added the peers queued. */
  ghost predicate Walked(
      answer: Addrs, todo: set<PeerId>, seen0: set<PeerId>, queried: set<PeerId>,
      seen: set<PeerId>, added: seq<PeerId>, addrsToUpdate: Addrs)
  {
    && todo <= answer.Keys
    && addrsToUpdate == (map q | q in answer && q !in todo && q !in queried :: answer[q])
    && seen == seen0 + (answer.Keys - todo)
    && NoDuplicates(added) && Elements(added) == (answer.Keys - todo) - seen0
  }

  lemma WalkStep(
      answer: Addrs, todo: set<PeerId>, seen0: set<PeerId>, queried: set<PeerId>,
      seen: set<PeerId>, added: seq<PeerId>, addrsToUpdate: Addrs, q: PeerId)
    requires Walked(answer, todo, seen0, queried, seen, added, addrsToUpdate) && q in todo
    ensures Walked(answer, todo - {q}, seen0, queried, seen + {q},
                   if q in seen then added else added + [q],
                   if q in queried then addrsToUpdate else addrsToUpdate[q := answer[q]])
  {
    assert q in seen <==> q in seen0;
    assert seen + {q} == seen0 + (answer.Keys - (todo - {q}));
    if q !in seen {
      ElementsAppend(added, q);
      assert q !in Elements(added);
      assert forall i | 0 <= i < |added| :: added[i] in Elements(added);
    }
  }

  class Crawl {
    const c: Config
    const peerAddrs: PeerAddrs
    var toDial: seq<PeerId>
    var peersSeen: set<PeerId>
    var peersQueried: set<PeerId>
    var outstanding: int
    // The channels and the workers.
    var jobs: seq<PeerId>
    var results: seq<Result>
    var taken: multiset<PeerId>
    var busy: multiset<PeerId>
    var blocked: multiset<PeerId>
    var finished: bool
    ghost var dialed: multiset<PeerId>
    ghost var consumed: multiset<PeerId>
    ghost var read: seq<Result>
    ghost var learned: Addrs

    ghost function View(): State
      reads this, peerAddrs
    {
      State(toDial, peersSeen, peersQueried, jobs, taken, busy, blocked, results, outstanding,
            peerAddrs.peers, finished, dialed, consumed, read, learned)
    }

    constructor (c: Config)
      ensures this.c == c && View() == State([], {}, {}, [], multiset{}, multiset{}, multiset{}, [], 0, map[], false,
                                             multiset{}, multiset{}, [], map[])
      ensures fresh(peerAddrs)
    {
      this.c := c;
      peerAddrs := new PeerAddrs();
      toDial, peersSeen, peersQueried, outstanding := [], {}, {}, 0;
      jobs, results, taken, busy, blocked, finished := [], [], multiset{}, multiset{}, multiset{}, false;
      dialed, consumed, read, learned := multiset{}, multiset{}, [], map[];
    }

    /** Queue the starting peers that have an address. */
    method Begin()
      requires View() == State([], {}, {}, [], multiset{}, multiset{}, multiset{}, [], 0, map[], false,
                               multiset{}, multiset{}, [], map[])
      modifies this, peerAddrs
      ensures View() == Init(c)
    {
      for i := 0 to |c.start|
        invariant toDial == Addressed(c.start[..i]) && peersSeen == Elements(toDial)
        invariant peerAddrs.peers == StartAddrs(c.start[..i]) && learned == peerAddrs.peers
        modifies this`toDial, this`peersSeen, this`learned, peerAddrs
      {
        assert c.start[..i + 1][..i] == c.start[..i];
        QueueStart(c.start[i]);
      }
      assert c.start[..|c.start|] == c.start;
    }

    method QueueStart(ai: Start)
      requires peersSeen == Elements(toDial) && learned == peerAddrs.peers
      modifies this`toDial, this`peersSeen, this`learned, peerAddrs
      ensures toDial == old(toDial) + (if ai.addrs == {} then [] else [ai.id])
      ensures peersSeen == Elements(toDial) && learned == peerAddrs.peers
      ensures peerAddrs.peers ==
              if ai.addrs == {} then old(peerAddrs.peers) else Merge(old(peerAddrs.peers), map[ai.id := ai.addrs])
    {
      if ai.addrs != {} {
        peerAddrs.AddPeerAddrs(ai.id, ai.addrs);
        ElementsAppend(toDial, ai.id);
        toDial := toDial + [ai.id];
        peersSeen := peersSeen + {ai.id};
        learned := peerAddrs.peers;
      }
    }

    /** Read a result: queue the peers it names that are new, and note the addresses. */
    method HandleResult() returns (ghost added: seq<PeerId>)
      requires results != []
      modifies this, peerAddrs
      ensures NewPeers(old(peersSeen), old(results)[0].data, added)
      ensures View() == ConsumeResult(old(View()), added)
    {
      ghost var s := View();
      var res := results[0];
      results := results[1..];
      outstanding := outstanding - 1;
      consumed, read := consumed + multiset{res.peer}, read + [res];
      assert View() == ReadResult(s);
      added := [];
      if res.data != map[] {
        added := NoteAnswer(res.peer, res.data);
      }
    }

    method NoteAnswer(p: PeerId, data: Addrs) returns (ghost added: seq<PeerId>)
      modifies this`toDial, this`peersSeen, this`peersQueried, this`learned, peerAddrs
      ensures NewPeers(old(peersSeen), data, added)
      ensures View() == Learn(old(View()), p, data, added)
    {
      var addrsToUpdate: Addrs;
      addrsToUpdate, added := Walk(data);
      peersQueried := peersQueried + {p};
      peerAddrs.RemoveSourceAndAddPeers(p, addrsToUpdate);
      learned := Merge(learned, data);
    }

    method Walk(data: Addrs) returns (addrsToUpdate: Addrs, ghost added: seq<PeerId>)
      modifies this`toDial, this`peersSeen
      ensures NewPeers(old(peersSeen), data, added)
      ensures toDial == old(toDial) + added && peersSeen == old(peersSeen) + data.Keys
      ensures addrsToUpdate == map q | q in data && q !in peersQueried :: data[q]
    {
      addrsToUpdate, added := map[], [];
      var todo := data.Keys;
      while todo != {}
        invariant Walked(data, todo, old(peersSeen), peersQueried, peersSeen, added, addrsToUpdate)
        invariant toDial == old(toDial) + added
        decreases todo
      {
        var q :| q in todo;
        WalkStep(data, todo, old(peersSeen), peersQueried, peersSeen, added, addrsToUpdate, q);
        if q !in peersQueried {
          addrsToUpdate := addrsToUpdate[q := data[q]];
        }
        if q !in peersSeen {
          peersSeen := peersSeen + {q};
          toDial := toDial + [q];
          added := added + [q];
        }
        assert q in peersSeen ==> peersSeen == peersSeen + {q};
        todo := todo - {q};
      }
    }

    /** What happened so far is a run of the state machine that leads to the present state. */
    ghost predicate Follows(states: seq<State>, events: seq<Event>)
      reads this, peerAddrs
    {
      IsRun(c, states, events) && states[|events|] == View()
    }

    /** Run the crawl. In each round the loop's select or one of the workers makes a move; that
        one of them can is proved, and so is the end of the crawl. */
    method Run() returns (ghost states: seq<State>, ghost events: seq<Event>)
      requires c.Valid() && Startable(c)
      requires View() == State([], {}, {}, [], multiset{}, multiset{}, multiset{}, [], 0, map[], false,
                               multiset{}, multiset{}, [], map[])
      modifies this, peerAddrs
      ensures finished && Follows(states, events)
    {
      Begin();
      states, events := [Init(c)], [];
      while |toDial| > 0 || outstanding > 0
        invariant !finished && Follows(states, events)
        decreases Work(c, View())
      {
        states, events := Round(states, events);
      }
      ghost var s := View();
      finished := true;
      MoveExtends(c, states, events, Finish);
      states, events := states + [Next(c, s, Finish)], events + [Finish];
    }

    method Round(ghost states: seq<State>, ghost events: seq<Event>)
      returns (ghost states': seq<State>, ghost events': seq<Event>)
      requires c.Valid() && Startable(c) && Looping(View())
      requires Follows(states, events)
      modifies this, peerAddrs
      ensures !finished && Follows(states', events')
      ensures 0 <= Work(c, View()) < old(Work(c, View()))
    {
      assert Inv(c, View()) by {
        RunKeepsInv(c, states, events, |events|);
      }
      ghost var e := Move();
      MoveExtends(c, states, events, e);
      OnlyFinishEnds(c, states[|events|], e);
      states', events' := states + [View()], events + [e];
    }

    /** One move of the loop or of a worker, whichever comes first. */
    method Move() returns (ghost e: Event)
      requires Startable(c) && Inv(c, View()) && Looping(View())
      modifies this, peerAddrs
      ensures Enabled(c, old(View()), e) && e != Finish
      ensures View() == Next(c, old(View()), e)
    {
      SomeoneCanMove(c, View());
      if {
        case results != [] => e := ReadNext();
        case |toDial| > 0 && |jobs| < 1 => e := DispatchNext();
        case jobs != [] && |taken| + |busy| + |blocked| < c.parallelism => e := TakeJob();
        case taken != multiset{} => e := StartDial();
        case busy != multiset{} => e := EndDial();
        case blocked != multiset{} && |results| < 1 => e := PostResult();
      }
    }

    method ReadNext() returns (ghost e: Event)
      requires Looping(View()) && results != []
      modifies this, peerAddrs
      ensures Enabled(c, old(View()), e) && e.Consume? && View() == Next(c, old(View()), e)
    {
      ghost var added := HandleResult();
      e := Consume(added);
    }

    method DispatchNext() returns (ghost e: Event)
      requires Looping(View()) && |toDial| > 0 && |jobs| < 1
      modifies this
      ensures e == Dispatch && Enabled(c, old(View()), e) && View() == Next(c, old(View()), e)
    {
      e := Dispatch;
      jobs := jobs + [toDial[0]];
      outstanding := outstanding + 1;
      toDial := toDial[1..];
    }

    method TakeJob() returns (ghost e: Event)
      requires jobs != [] && |taken| + |busy| + |blocked| < c.parallelism
      modifies this
      ensures e == Take && Enabled(c, old(View()), e) && View() == Next(c, old(View()), e)
    {
      e := Take;
      taken := taken + multiset{jobs[0]};
      jobs := jobs[1..];
    }

    /** A worker reads the addresses of its peer, whenever it comes to that, and dials with them. */
    method StartDial() returns (ghost e: Event)
      requires taken != multiset{}
      modifies this
      ensures e.Look? && Enabled(c, old(View()), e) && View() == Next(c, old(View()), e)
    {
      var p :| p in taken;
      var addrs := ReadAddrs(p);
      e := Look(p);
      taken, busy, dialed := taken - multiset{p}, busy + multiset{p}, dialed + multiset{p};
    }

    /** The addresses that a worker dials a peer with. After a run without repeated starting peers, they
        are exactly those that the starting peers and the results read so far name. */
    method ReadAddrs(p: PeerId) returns (addrs: set<Addr>)
      ensures forall states, events, a |
                && c.Valid() && Follows(states, events)
                && NoDuplicates(Addressed(c.start)) && (p in taken || p in busy) ::
                a in addrs <==> Reported(c, states, events, |events|, p, a)
    {
      addrs := peerAddrs.PeerInfo(p);
      forall states, events, a |
        && c.Valid() && Follows(states, events)
        && NoDuplicates(Addressed(c.start)) && (p in taken || p in busy)
        ensures a in addrs <==> Reported(c, states, events, |events|, p, a)
      {
        DialUsesAllAddresses(c, states, events, |events|, p, a);
      }
    }

    method EndDial() returns (ghost e: Event)
      requires busy != multiset{}
      modifies this
      ensures e.Answered? && Enabled(c, old(View()), e) && View() == Next(c, old(View()), e)
    {
      var p :| p in busy;
      e := Answered(p);
      busy, blocked := busy - multiset{p}, blocked + multiset{p};
    }

    /** A worker posts its result, whatever the dial came to. */
    method PostResult() returns (ghost e: Event)
      requires blocked != multiset{} && |results| < 1
      modifies this
      ensures e.Post? && Enabled(c, old(View()), e) && View() == Next(c, old(View()), e)
    {
      var p :| p in blocked;
      var failed: Addrs := map[];
      assert failed.Keys <= c.universe;
      var data: Addrs :| data.Keys <= c.universe;
      e := Post(p, data);
      blocked, results := blocked - multiset{p}, results + [Result(p, data)];
    }
  }

  /** A further move extends a run and leaves less work. */
  lemma MoveExtends(c: Config, states: seq<State>, events: seq<Event>, e: Event)
    requires c.Valid() && IsRun(c, states, events) && Enabled(c, states[|events|], e)
    ensures IsRun(c, states + [Next(c, states[|events|], e)], events + [e])
    ensures 0 <= Work(c, Next(c, states[|events|], e)) < Work(c, states[|events|])
  {
    RunKeepsInv(c, states, events, |events|);
    WorkShrinks(c, states[|events|], e);
    ExtendRun(c, states, events, e);
  }

  lemma OnlyFinishEnds(c: Config, s: State, e: Event)
    requires Enabled(c, s, e) && e != Finish
    ensures Next(c, s, e).finished == s.finished
  {
  }

  lemma SomeoneCanMove(c: Config, s: State)
    requires Startable(c) && Inv(c, s) && Looping(s)
    ensures || s.results != []
            || (|s.toDial| > 0 && |s.jobs| < 1)
            || (s.jobs != [] && |s.taken| + |s.busy| + |s.blocked| < c.parallelism)
            || s.taken != multiset{}
            || s.busy != multiset{}
            || (s.blocked != multiset{} && |s.results| < 1)
  {
    if c.parallelism == 0 {
      NothingToLoopFor(c, s);
    } else if s.taken == multiset{} && s.busy == multiset{} && s.blocked == multiset{} {
      assert |s.taken| == 0 && |s.busy| == 0 && |s.blocked| == 0;
    }
  }

  lemma ExtendRun(c: Config, states: seq<State>, events: seq<Event>, e: Event)
    requires IsRun(c, states, events) && Enabled(c, states[|events|], e)
    ensures IsRun(c, states + [Next(c, states[|events|], e)], events + [e])
  {
  }
}
