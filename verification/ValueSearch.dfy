/** Choosing the best of the values that a search receives, streaming each improvement, and
    stopping the search once enough responses have come in. */
module ValueSearch {
  import opened Base

  type Data = seq<byte>

  /** A value, its sender, whether comparing it with the best one fails, and whether the
      consumer takes it when it is streamed, as opposed to the context ending first. */
  datatype Received = Received(val: Data, from: PeerId, fails: bool, delivered: bool)

  /** Whether a value is at least as good as another; the selection between the best value and
      a new one prefers the best one if they are equally good. */
  type Order = (Data, Data) -> bool

  ghost predicate TotalPreorder(geq: Order) {
    && (forall a, b :: geq(a, b) || geq(b, a))
    && (forall a, b, c :: geq(a, b) && geq(b, c) ==> geq(a, c))
  }

  /** The state of a search: the best value and who sent it, the values counted as responses, what was
      streamed, and how often the stop channel was closed. */
  datatype Search = Search(
    best: Option<Data>,
    holders: set<PeerId>,
    counted: nat,
    streamed: seq<Data>,
    stops: nat,
    aborted: bool)

  const EMPTY: Search := Search(None, {}, 0, [], 0, false)

  /** Count a response; stream it if it is better; stop if there are more than quorum. */
  function Count(s: Search, v: Received, better: bool, quorum: int): Search {
    var t := s.(counted := s.counted + 1);
    if better && !v.delivered then t
    else
      var u := if better then t.(streamed := t.streamed + [v.val]) else t;
      if quorum > 0 && u.counted > quorum then u.(stops := u.stops + 1, aborted := true) else u
  }

  /** Whether the selection between the best value and a new one is asked for, and fails. */
  predicate Errs(s: Search, v: Received) {
    s.best.Some? && s.best.value != v.val && v.fails
  }

  function Handle(geq: Order, quorum: int, s: Search, v: Received): Search {
    if Errs(s, v) then s
    else
      match s.best
      case Some(best) =>
        if best == v.val then Count(s.(holders := s.holders + {v.from}), v, false, quorum)
        else if geq(best, v.val) then Count(s, v, false, quorum)
        else Count(s.(best := Some(v.val), holders := {v.from}), v, true, quorum)
      case None => Count(s.(best := Some(v.val), holders := {v.from}), v, true, quorum)
  }

  /** The state after the values of a sequence, of which those after an abort are not read. */
  function Outcome(geq: Order, quorum: int, vals: seq<Received>): Search {
    if vals == [] then EMPTY
    else
      var s := Outcome(geq, quorum, vals[..|vals| - 1]);
      if s.aborted then s else Handle(geq, quorum, s, vals[|vals| - 1])
  }

  /** Process values until there are no more, the context ends, or the quorum is exceeded; vals
      are the values received before the context ends. */
  method ProcessValues(geq: Order, quorum: int, vals: seq<Received>)
    returns (best: Option<Data>, peersWithBest: set<PeerId>, aborted: bool, streamed: seq<Data>, stops: nat)
    ensures var s := Outcome(geq, quorum, vals);
            best == s.best && peersWithBest == s.holders && aborted == s.aborted
            && streamed == s.streamed && stops == s.stops
  {
    best, peersWithBest, aborted, streamed, stops := None, {}, false, [], 0;
    var numResponses := 0;
    var i := 0;
    while i < |vals| && !aborted
      invariant 0 <= i <= |vals|
      invariant Outcome(geq, quorum, vals[..i]) == Search(best, peersWithBest, numResponses, streamed, stops, aborted)
    {
      assert vals[..i + 1][..i] == vals[..i];
      var v := vals[i];
      i := i + 1;
      if best.Some? {
        if best.value == v.val {
          peersWithBest := peersWithBest + {v.from};
          numResponses, streamed, stops, aborted := NewVal(v, false, quorum, numResponses, streamed, stops);
          continue;
        }
        if v.fails {
          continue;
        }
        if geq(best.value, v.val) {
          numResponses, streamed, stops, aborted := NewVal(v, false, quorum, numResponses, streamed, stops);
          continue;
        }
      }
      peersWithBest := {v.from};
      best := Some(v.val);
      numResponses, streamed, stops, aborted := NewVal(v, true, quorum, numResponses, streamed, stops);
    }
    RestUnread(geq, quorum, vals, i);
  }

  method NewVal(v: Received, better: bool, quorum: int, responses: nat, streamed: seq<Data>, stops: nat)
    returns (responses': nat, streamed': seq<Data>, stops': nat, abort: bool)
    ensures forall s: Search | s.counted == responses && s.streamed == streamed && s.stops == stops && !s.aborted ::
              Count(s, v, better, quorum) ==
              s.(counted := responses', streamed := streamed', stops := stops', aborted := abort)
  {
    responses', streamed', stops', abort := responses + 1, streamed, stops, false;
    if better {
      if !v.delivered {
        return;
      }
      streamed' := streamed' + [v.val];
    }
    if quorum > 0 && responses' > quorum {
      stops' := stops' + 1;
      abort := true;
    }
  }

  lemma {:induction false} RestUnread(geq: Order, quorum: int, vals: seq<Received>, i: nat)
    requires i <= |vals| && (i < |vals| ==> Outcome(geq, quorum, vals[..i]).aborted)
    ensures Outcome(geq, quorum, vals) == Outcome(geq, quorum, vals[..i])
  {
    if i < |vals| {
      assert vals[..|vals| - 1][..i] == vals[..i];
      RestUnread(geq, quorum, vals[..|vals| - 1], i);
    } else {
      assert vals[..i] == vals;
    }
  }

  /** The values that a search looks at: those before an abort whose selection does not fail. */
  function Considered(geq: Order, quorum: int, vals: seq<Received>): (r: seq<Received>)
    ensures |r| <= |vals|
  {
    if vals == [] then []
    else
      var n := |vals| - 1;
      var s := Outcome(geq, quorum, vals[..n]);
      Considered(geq, quorum, vals[..n]) + (if s.aborted || Errs(s, vals[n]) then [] else [vals[n]])
  }

  /** The senders of a value. */
  function Senders(vals: seq<Received>, val: Data): set<PeerId> {
    set v | v in vals && v.val == val :: v.from
  }

  ghost predicate StrictlyImproves(geq: Order, s: seq<Data>) {
    forall i, j | 0 <= i < j < |s| :: !geq(s[i], s[j])
  }

  /** The best value of some values, and who sent it. */
  ghost predicate IsBest(geq: Order, vals: seq<Received>, s: Search) {
    match s.best
    case None => vals == [] && s.streamed == []
    case Some(best) =>
      && (forall v | v in vals :: geq(best, v.val))
      && (exists v | v in vals :: v.val == best)
      && s.holders == Senders(vals, best)
      && forall i | 0 <= i < |s.streamed| :: geq(best, s.streamed[i])
  }

  /** What holds of a search after the values it looked at. */
  ghost predicate Sound(geq: Order, vals: seq<Received>, s: Search) {
    && IsBest(geq, vals, s)
    && StrictlyImproves(geq, s.streamed)
    && s.counted == |vals|
    && s.stops == if s.aborted then 1 else 0
  }

  lemma InMore(vals: seq<Received>, v: Received)
    ensures forall w :: w in vals + [v] <==> w in vals || w == v
  {
    assert (vals + [v])[|vals|] == v;
  }

  lemma SendersMore(vals: seq<Received>, v: Received, val: Data)
    ensures Senders(vals + [v], val) == Senders(vals, val) + if v.val == val then {v.from} else {}
  {
    InMore(vals, v);
  }

  lemma HandleSound(geq: Order, quorum: int, vals: seq<Received>, s: Search, v: Received)
    requires TotalPreorder(geq) && Sound(geq, vals, s) && !s.aborted && !Errs(s, v)
    ensures Sound(geq, vals + [v], Handle(geq, quorum, s, v))
  {
    var t := Handle(geq, quorum, s, v);
    if s.best.Some? && (s.best.value == v.val || geq(s.best.value, v.val)) {
      KeepBest(geq, vals, s, v, t);
    } else {
      NewBest(geq, vals, s, v, t);
    }
  }

  lemma KeepBest(geq: Order, vals: seq<Received>, s: Search, v: Received, t: Search)
    requires TotalPreorder(geq) && Sound(geq, vals, s) && s.best.Some?
    requires s.best.value == v.val || geq(s.best.value, v.val)
    requires t.holders == s.holders + (if s.best.value == v.val then {v.from} else {})
    requires t.best == s.best && t.streamed == s.streamed
    requires t.counted == s.counted + 1 && t.stops == if t.aborted then 1 else 0
    ensures Sound(geq, vals + [v], t)
  {
    var best := s.best.value;
    assert geq(best, best);
    InMore(vals, v);
    SendersMore(vals, v, best);
  }

  lemma NewBest(geq: Order, vals: seq<Received>, s: Search, v: Received, t: Search)
    requires TotalPreorder(geq) && Sound(geq, vals, s)
    requires s.best.Some? ==> !geq(s.best.value, v.val)
    requires t.best == Some(v.val) && t.holders == {v.from}
    requires t.streamed == s.streamed || t.streamed == s.streamed + [v.val]
    requires t.counted == s.counted + 1 && t.stops == if t.aborted then 1 else 0
    ensures Sound(geq, vals + [v], t)
  {
    assert geq(v.val, v.val);
    InMore(vals, v);
    SendersMore(vals, v, v.val);
    if s.best.Some? {
      var best := s.best.value;
      assert geq(v.val, best);
      assert forall w | w in vals :: geq(best, w.val) && geq(v.val, w.val) && w.val != v.val;
      assert forall i | 0 <= i < |s.streamed| ::
          geq(best, s.streamed[i]) && geq(v.val, s.streamed[i]) && !geq(s.streamed[i], v.val);
    }
    assert Senders(vals, v.val) == {};
  }

  /** At any point of a search, the best value is a maximum of those looked at, its holders are exactly
      the senders of these very bytes, the streamed values strictly improve, each value looked at is
      counted, and the stop channel was closed at most once, namely on aborting. A value whose selection
      fails changes nothing. */
  lemma {:induction false} SearchIsSound(geq: Order, quorum: int, vals: seq<Received>)
    requires TotalPreorder(geq)
    ensures Sound(geq, Considered(geq, quorum, vals), Outcome(geq, quorum, vals))
  {
    if vals != [] {
      var n := |vals| - 1;
      SearchIsSound(geq, quorum, vals[..n]);
      var s := Outcome(geq, quorum, vals[..n]);
      var before := Considered(geq, quorum, vals[..n]);
      if s.aborted || Errs(s, vals[n]) {
        assert before + [] == before;
      } else {
        HandleSound(geq, quorum, before, s, vals[n]);
      }
    }
  }

  /** Until a search aborts it looks at every value, except one whose selection against the best value is asked
      for and fails: that changes nothing. */
  lemma ConsideredUnlessFailing(geq: Order, quorum: int, vals: seq<Received>, v: Received)
    requires !Outcome(geq, quorum, vals).aborted
    ensures var s := Outcome(geq, quorum, vals);
            if s.best.Some? && s.best.value != v.val && v.fails then
              Outcome(geq, quorum, vals + [v]) == s
              && Considered(geq, quorum, vals + [v]) == Considered(geq, quorum, vals)
            else
              Considered(geq, quorum, vals + [v]) == Considered(geq, quorum, vals) + [v]
  {
    assert (vals + [v])[..|vals|] == vals;
  }

  lemma {:induction false} ConsideredStays(geq: Order, quorum: int, vals: seq<Received>, i: nat)
    requires i <= |vals|
    ensures Considered(geq, quorum, vals[..i]) <= Considered(geq, quorum, vals)
  {
    if i < |vals| {
      assert vals[..|vals| - 1][..i] == vals[..i];
      ConsideredStays(geq, quorum, vals[..|vals| - 1], i);
    } else {
      assert vals[..i] == vals;
    }
  }

  /** So a search that does not abort looks at every value whose selection does not fail. */
  lemma AllConsidered(geq: Order, quorum: int, vals: seq<Received>, i: nat)
    requires i < |vals| && !Outcome(geq, quorum, vals).aborted
    ensures var best := Outcome(geq, quorum, vals[..i]).best;
            || (best.Some? && best.value != vals[i].val && vals[i].fails)
            || vals[i] in Considered(geq, quorum, vals)
  {
    if Outcome(geq, quorum, vals[..i]).aborted {
      RestUnread(geq, quorum, vals, i);
    }
    assert vals[..i + 1] == vals[..i] + [vals[i]];
    ConsideredUnlessFailing(geq, quorum, vals[..i], vals[i]);
    ConsideredStays(geq, quorum, vals, i + 1);
    assert vals[i] in Considered(geq, quorum, vals[..i + 1]) ==> vals[i] in Considered(geq, quorum, vals);
  }

  /** None of some values is as good as this one. */
  ghost predicate Improves(geq: Order, vals: seq<Received>, val: Data) {
    forall v | v in vals :: !geq(v.val, val)
  }

  /** The values that improve on all before them and that the consumer took, in order. */
  ghost function Improvements(geq: Order, vals: seq<Received>): seq<Data> {
    if vals == [] then []
    else
      var n := |vals| - 1;
      Improvements(geq, vals[..n])
      + if Improves(geq, vals[..n], vals[n].val) && vals[n].delivered then [vals[n].val] else []
  }

  lemma ImprovesIff(geq: Order, vals: seq<Received>, s: Search, val: Data)
    requires TotalPreorder(geq) && Sound(geq, vals, s)
    ensures Improves(geq, vals, val) <==> s.best.None? || (s.best.value != val && !geq(s.best.value, val))
  {
    if s.best.Some? {
      var best := s.best.value;
      assert geq(best, best);
      assert geq(best, val) ==> !Improves(geq, vals, val);
      assert !geq(best, val) ==> forall v | v in vals && geq(v.val, val) :: geq(best, v.val) && geq(best, val);
    }
  }

  lemma ImprovementsMore(geq: Order, vals: seq<Received>, v: Received)
    ensures Improvements(geq, vals + [v]) ==
            Improvements(geq, vals) + if Improves(geq, vals, v.val) && v.delivered then [v.val] else []
  {
    assert (vals + [v])[..|vals|] == vals;
  }

  lemma HandleStreams(geq: Order, quorum: int, vals: seq<Received>, s: Search, v: Received)
    requires TotalPreorder(geq) && Sound(geq, vals, s) && !s.aborted && !Errs(s, v)
    ensures var t := Handle(geq, quorum, s, v);
            && t.streamed == s.streamed + (if Improves(geq, vals, v.val) && v.delivered then [v.val] else [])
            && (t.aborted <==> quorum > 0 && |vals| + 1 > quorum && (Improves(geq, vals, v.val) ==> v.delivered))
  {
    ImprovesIff(geq, vals, s, v.val);
  }

  /** Exactly the improvements are streamed, in order. */
  lemma {:induction false} StreamsImprovements(geq: Order, quorum: int, vals: seq<Received>)
    requires TotalPreorder(geq)
    ensures Outcome(geq, quorum, vals).streamed == Improvements(geq, Considered(geq, quorum, vals))
  {
    if vals != [] {
      var n := |vals| - 1;
      StreamsImprovements(geq, quorum, vals[..n]);
      var s, before := Outcome(geq, quorum, vals[..n]), Considered(geq, quorum, vals[..n]);
      if s.aborted || Errs(s, vals[n]) {
        assert before + [] == before;
      } else {
        SearchIsSound(geq, quorum, vals[..n]);
        HandleStreams(geq, quorum, before, s, vals[n]);
        ImprovementsMore(geq, before, vals[n]);
      }
    }
  }

  /** A value that is looked at aborts the search exactly if more than a positive quorum were, unless it is an
      improvement that the consumer did not take. */
  lemma AbortsIff(geq: Order, quorum: int, vals: seq<Received>, v: Received)
    requires TotalPreorder(geq) && !Outcome(geq, quorum, vals).aborted
    requires var best := Outcome(geq, quorum, vals).best; best.None? || best.value == v.val || !v.fails
    ensures var before := Considered(geq, quorum, vals);
            Outcome(geq, quorum, vals + [v]).aborted <==>
            quorum > 0 && |before| + 1 > quorum && (Improves(geq, before, v.val) ==> v.delivered)
  {
    assert (vals + [v])[..|vals|] == vals;
    SearchIsSound(geq, quorum, vals);
    HandleStreams(geq, quorum, Considered(geq, quorum, vals), Outcome(geq, quorum, vals), v);
  }

  /** What was streamed stays streamed, and comes first. */
  lemma {:induction false} PrefixStreams(geq: Order, quorum: int, vals: seq<Received>, i: nat)
    requires i <= |vals|
    ensures Outcome(geq, quorum, vals[..i]).streamed <= Outcome(geq, quorum, vals).streamed
  {
    if i < |vals| {
      assert vals[..|vals| - 1][..i] == vals[..i];
      PrefixStreams(geq, quorum, vals[..|vals| - 1], i);
    } else {
      assert vals[..i] == vals;
    }
  }

  lemma HandleCounts(geq: Order, quorum: int, s: Search, v: Received)
    requires !s.aborted && !Errs(s, v) && v.delivered
    requires s.best.Some? ==> s.streamed != [] && s.streamed[|s.streamed| - 1] == s.best.value
    ensures var t := Handle(geq, quorum, s, v);
            && t.counted == s.counted + 1 && (t.aborted <==> quorum > 0 && t.counted > quorum)
            && t.best.Some? && t.streamed != [] && t.streamed[|t.streamed| - 1] == t.best.value
  {
  }

  /** A search whose values are all delivered aborts exactly at the response that follows a positive
      quorum; without a quorum it never aborts. The last value streamed is the best. */
  lemma {:induction false} AbortsAfterQuorum(geq: Order, quorum: int, vals: seq<Received>)
    requires forall i | 0 <= i < |vals| :: vals[i].delivered
    ensures var s, seen := Outcome(geq, quorum, vals), |Considered(geq, quorum, vals)|;
            && (s.aborted <==> quorum > 0 && seen > quorum)
            && s.counted == seen && (quorum > 0 ==> seen <= quorum + 1)
            && (s.best.Some? ==> s.streamed != [] && s.streamed[|s.streamed| - 1] == s.best.value)
  {
    if vals != [] {
      var n := |vals| - 1;
      AbortsAfterQuorum(geq, quorum, vals[..n]);
      var s := Outcome(geq, quorum, vals[..n]);
      if !s.aborted && !Errs(s, vals[n]) {
        HandleCounts(geq, quorum, s, vals[n]);
      }
    }
  }

  /** The peers of a lookup's result to send the best value to: those that did not send it. */
  method PeersToUpdate(peers: seq<PeerId>, peersWithBest: set<PeerId>) returns (updatePeers: seq<PeerId>)
    ensures Elements(updatePeers) == Elements(peers) - peersWithBest
    ensures multiset(updatePeers) <= multiset(peers)
  {
    updatePeers := [];
    for i := 0 to |peers|
      invariant Elements(updatePeers) == Elements(peers[..i]) - peersWithBest
      invariant multiset(updatePeers) <= multiset(peers[..i])
    {
      ElementsPrefix(peers, i);
      assert peers[..i + 1] == peers[..i] + [peers[i]];
      if peers[i] !in peersWithBest {
        ElementsAppend(updatePeers, peers[i]);
        updatePeers := updatePeers + [peers[i]];
      }
    }
    assert peers[..|peers|] == peers;
  }
}
