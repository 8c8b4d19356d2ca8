/** The diversity scan of the full routing table client: the nearest peers to a key, of which
    no IP group may hold more than a limit. */
module FullRTScan {
  import opened Base

  /** The IP groups of a peer's addresses, in order; None for an address without one. */
  type Groups = PeerId -> seq<Option<Group>>

  /** The peers that used up places of each group, and the peers chosen. */
  datatype Scan = Scan(counts: map<Group, set<PeerId>>, peers: seq<PeerId>)

  function Members(counts: map<Group, set<PeerId>>, g: Group): set<PeerId> {
    if g in counts then counts[g] else {}
  }

  /** Whether a peer finds a place in the groups of all its addresses, and the places used up
      by trying. */
  function TakePlaces(counts: map<Group, set<PeerId>>, limit: nat, p: PeerId, groups: seq<Option<Group>>)
    : (r: (bool, map<Group, set<PeerId>>))
  {
    if groups == [] then (true, counts)
    else
      var n := |groups| - 1;
      var (fits, used) := TakePlaces(counts, limit, p, groups[..n]);
      if !fits then (false, used)
      else
        match groups[n]
        case None => (true, used)
        case Some(g) =>
          if |Members(used, g)| >= limit then (false, used[g := Members(used, g)])
          else (true, used[g := Members(used, g) + {p}])
  }

  function Visit(s: Scan, limit: nat, groupsOf: Groups, entry: Option<PeerId>): Scan {
    match entry
    case None => s
    case Some(p) =>
      if limit == 0 then s.(peers := s.peers + [p])
      else
        var (fits, used) := TakePlaces(s.counts, limit, p, groupsOf(p));
        Scan(used, if fits then s.peers + [p] else s.peers)
  }

  /** One greedy pass over the entries, nearest first, until bucket peers are chosen. */
  function Greedy(bucket: nat, limit: nat, groupsOf: Groups, ranked: seq<Option<PeerId>>): Scan {
    if ranked == [] then Scan(map[], [])
    else
      var n := |ranked| - 1;
      var s := Greedy(bucket, limit, groupsOf, ranked[..n]);
      if |s.peers| >= bucket then s else Visit(s, limit, groupsOf, ranked[n])
  }

  lemma {:induction false} FullStays(bucket: nat, limit: nat, groupsOf: Groups, ranked: seq<Option<PeerId>>, i: nat)
    requires i <= |ranked| && |Greedy(bucket, limit, groupsOf, ranked[..i]).peers| >= bucket
    ensures Greedy(bucket, limit, groupsOf, ranked) == Greedy(bucket, limit, groupsOf, ranked[..i])
  {
    var n := |ranked| - 1;
    if i == |ranked| {
      assert ranked[..i] == ranked;
    } else {
      assert ranked[..n][..i] == ranked[..i];
      FullStays(bucket, limit, groupsOf, ranked[..n], i);
    }
  }

  /** The n nearest entries of the routing table. */
  function ClosestN(ranked: seq<Option<PeerId>>, n: nat): (r: seq<Option<PeerId>>)
    ensures |r| <= |ranked| && r == ranked[..|r|] && (|r| == n || (|r| == |ranked| && |ranked| <= n))
  {
    if n < |ranked| then ranked[..n] else ranked
  }

  /** The scan as the program runs it: window after window of the ranked table, each slightly
      larger than what is wanted. It chooses exactly what one greedy pass chooses: the nearest that fit.
      ranked holds the peer of each key of the table, nearest first, or None for a key without a peer. */
  method GetClosestPeers(bucket: nat, limit: nat, groupsOf: Groups, ranked: seq<Option<PeerId>>)
    returns (peers: seq<PeerId>, ghost chosen: seq<nat>)
    requires bucket > 0
    ensures peers == Greedy(bucket, limit, groupsOf, ranked).peers
    ensures Chooses(bucket, limit, groupsOf, ranked, chosen, peers)
  {
    var counts: map<Group, set<PeerId>> := map[];
    peers := [];
    chosen := GreedyChooses(bucket, limit, groupsOf, ranked);
    var step := bucket + 2 * limit;
    var nClosest := 0;
    while nClosest < |ranked|
      invariant Greedy(bucket, limit, groupsOf, ranked[..Smaller(nClosest, |ranked|)]) == Scan(counts, peers)
      invariant |peers| < bucket
      decreases |ranked| - nClosest
    {
      var window := ClosestN(ranked, nClosest + step);
      assert window[..nClosest] == ranked[..nClosest];
      counts, peers := ScanWindow(bucket, limit, groupsOf, window, nClosest, counts, peers);
      if |peers| == bucket {
        FullStays(bucket, limit, groupsOf, ranked, |window|);
        return;
      }
      nClosest := nClosest + step;
    }
    assert ranked[..|ranked|] == ranked;
  }

  /** The inner loop: continue the pass from the given entry to the end of the window. */
  method ScanWindow(
      bucket: nat, limit: nat, groupsOf: Groups, window: seq<Option<PeerId>>, start: nat,
      counts0: map<Group, set<PeerId>>, peers0: seq<PeerId>)
    returns (counts: map<Group, set<PeerId>>, peers: seq<PeerId>)
    requires start <= |window| && |peers0| < bucket
    requires Greedy(bucket, limit, groupsOf, window[..start]) == Scan(counts0, peers0)
    ensures Greedy(bucket, limit, groupsOf, window) == Scan(counts, peers)
    ensures |peers| <= bucket
  {
    counts, peers := counts0, peers0;
    for i := start to |window|
      invariant Greedy(bucket, limit, groupsOf, window[..i]) == Scan(counts, peers)
      invariant |peers| < bucket
    {
      assert window[..i + 1][..i] == window[..i];
      if window[i] == None {
        continue;
      }
      var p := window[i].value;
      var fits := true;
      if limit > 0 {
        fits, counts := TryPlaces(counts, limit, p, groupsOf(p));
      }
      if !fits {
        continue;
      }
      peers := peers + [p];
      if |peers| == bucket {
        FullStays(bucket, limit, groupsOf, window, i + 1);
        return;
      }
    }
    assert window[..|window|] == window;
  }

  method TryPlaces(counts: map<Group, set<PeerId>>, limit: nat, p: PeerId, groups: seq<Option<Group>>)
    returns (fits: bool, used: map<Group, set<PeerId>>)
    ensures (fits, used) == TakePlaces(counts, limit, p, groups)
  {
    used := counts;
    for i := 0 to |groups|
      invariant (true, used) == TakePlaces(counts, limit, p, groups[..i])
    {
      assert groups[..i + 1][..i] == groups[..i];
      if groups[i] == None {
        continue;
      }
      var g := groups[i].value;
      ghost var before := used;
      if g !in used {
        used := used[g := {}];
      }
      if |used[g]| >= limit {
        assert used == before[g := Members(before, g)];
        PlacesRefused(counts, limit, p, groups, i + 1);
        return false, used;
      }
      used := used[g := used[g] + {p}];
      assert used == before[g := Members(before, g) + {p}];
    }
    assert groups[..|groups|] == groups;
    return true, used;
  }

  lemma {:induction false} PlacesRefused(
      counts: map<Group, set<PeerId>>, limit: nat, p: PeerId, groups: seq<Option<Group>>, i: nat)
    requires i <= |groups| && !TakePlaces(counts, limit, p, groups[..i]).0
    ensures TakePlaces(counts, limit, p, groups) == TakePlaces(counts, limit, p, groups[..i])
  {
    if i == |groups| {
      assert groups[..i] == groups;
    } else {
      var n := |groups| - 1;
      assert groups[..n][..i] == groups[..i];
      PlacesRefused(counts, limit, p, groups[..n], i);
    }
  }

  // ---------- What the scan promises ----------

  ghost predicate Ascending(dist: PeerId -> nat, ranked: seq<Option<PeerId>>) {
    forall i, j | 0 <= i < j < |ranked| && ranked[i].Some? && ranked[j].Some? ::
      dist(ranked[i].value) < dist(ranked[j].value)
  }

  /** The peers chosen are among the ranked ones, in ascending distance and hence without
      duplicates, and no more than wanted. */
  lemma {:induction false} ChosenAscend(
      bucket: nat, limit: nat, groupsOf: Groups, ranked: seq<Option<PeerId>>, dist: PeerId -> nat)
    requires Ascending(dist, ranked)
    ensures var peers := Greedy(bucket, limit, groupsOf, ranked).peers;
            && |peers| <= bucket
            && (forall i | 0 <= i < |peers| :: Some(peers[i]) in ranked)
            && (forall i, j | 0 <= i < j < |peers| :: dist(peers[i]) < dist(peers[j]))
  {
    if ranked != [] {
      var n := |ranked| - 1;
      var front := ranked[..n];
      ChosenAscend(bucket, limit, groupsOf, front, dist);
      var before := Greedy(bucket, limit, groupsOf, front).peers;
      forall i | 0 <= i < |before|
        ensures Some(before[i]) in ranked
        ensures ranked[n].Some? ==> dist(before[i]) < dist(ranked[n].value)
      {
        var j :| 0 <= j < n && front[j] == Some(before[i]);
        assert ranked[j] == Some(before[i]);
      }
      assert ranked[n] in ranked;
    }
  }

  /** A place is used up in every group of a peer that found one, and no group is overfull. */
  lemma {:induction false} PlacesTaken(
      counts: map<Group, set<PeerId>>, limit: nat, p: PeerId, groups: seq<Option<Group>>)
    requires forall g | g in counts :: |counts[g]| <= limit
    ensures var (fits, used) := TakePlaces(counts, limit, p, groups);
            && (forall g | g in used :: |used[g]| <= limit)
            && (forall g | g in counts :: g in used && counts[g] <= used[g])
            && (fits ==> forall g | Some(g) in groups :: g in used && p in used[g])
  {
    if groups != [] {
      PlacesTaken(counts, limit, p, groups[..|groups| - 1]);
    }
  }

  /** The chosen peers that have an address in a group. */
  function Chosen(peers: seq<PeerId>, groupsOf: Groups, g: Group): set<PeerId> {
    set p | p in peers && Some(g) in groupsOf(p)
  }

  ghost predicate WithinCounts(s: Scan, limit: nat, groupsOf: Groups) {
    && (forall g | g in s.counts :: |s.counts[g]| <= limit)
    && (forall p, g | p in s.peers && Some(g) in groupsOf(p) :: g in s.counts && p in s.counts[g])
  }

  lemma VisitWithin(s: Scan, limit: nat, groupsOf: Groups, entry: Option<PeerId>)
    requires limit > 0 && WithinCounts(s, limit, groupsOf)
    ensures WithinCounts(Visit(s, limit, groupsOf, entry), limit, groupsOf)
  {
    if entry.Some? {
      PlacesTaken(s.counts, limit, entry.value, groupsOf(entry.value));
    }
  }

  lemma {:induction false} GreedyWithin(bucket: nat, limit: nat, groupsOf: Groups, ranked: seq<Option<PeerId>>)
    requires limit > 0
    ensures WithinCounts(Greedy(bucket, limit, groupsOf, ranked), limit, groupsOf)
  {
    if ranked != [] {
      var n := |ranked| - 1;
      GreedyWithin(bucket, limit, groupsOf, ranked[..n]);
      VisitWithin(Greedy(bucket, limit, groupsOf, ranked[..n]), limit, groupsOf, ranked[n]);
    }
  }

  /** With a positive limit, at most that many of the chosen peers share an IP group. */
  lemma GroupsAreDiverse(bucket: nat, limit: nat, groupsOf: Groups, ranked: seq<Option<PeerId>>, g: Group)
    requires limit > 0
    ensures |Chosen(Greedy(bucket, limit, groupsOf, ranked).peers, groupsOf, g)| <= limit
  {
    GreedyWithin(bucket, limit, groupsOf, ranked);
    var s := Greedy(bucket, limit, groupsOf, ranked);
    var chosen := Chosen(s.peers, groupsOf, g);
    if chosen != {} {
      SubsetCardinality(chosen, s.counts[g]);
    }
  }

  /** Whether the i-th address of a peer finds a place: its group must have one left after the
      places that the peer itself took for its earlier addresses are counted. */
  predicate FindsPlace(counts: map<Group, set<PeerId>>, limit: nat, p: PeerId, groups: seq<Option<Group>>, i: nat)
    requires i < |groups|
  {
    groups[i].Some? ==>
      |Members(counts, groups[i].value) + (if groups[i] in groups[..i] then {p} else {})| < limit
  }

  /** Trying a peer whose addresses all found places added it to exactly their groups. */
  lemma {:induction false} PlacesUsed(
      counts: map<Group, set<PeerId>>, limit: nat, p: PeerId, groups: seq<Option<Group>>, g: Group)
    requires TakePlaces(counts, limit, p, groups).0
    ensures Members(TakePlaces(counts, limit, p, groups).1, g) ==
            Members(counts, g) + (if Some(g) in groups then {p} else {})
  {
    if groups != [] {
      var n := |groups| - 1;
      var front := groups[..n];
      var used := TakePlaces(counts, limit, p, front).1;
      PlacesUsed(counts, limit, p, front, g);
      assert Some(g) in groups <==> Some(g) in front || groups[n] == Some(g) by {
        assert groups == front + [groups[n]];
      }
      if groups[n] == Some(g) {
        assert Members(used, g) + {p} == Members(counts, g) + {p};
      }
    }
  }

  lemma LastFindsPlace(counts: map<Group, set<PeerId>>, limit: nat, p: PeerId, groups: seq<Option<Group>>)
    requires groups != [] && TakePlaces(counts, limit, p, groups[..|groups| - 1]).0
    ensures TakePlaces(counts, limit, p, groups).0 <==> FindsPlace(counts, limit, p, groups, |groups| - 1)
  {
    var n := |groups| - 1;
    if groups[n].Some? {
      PlacesUsed(counts, limit, p, groups[..n], groups[n].value);
    }
  }

  /** A peer is admitted exactly when each of its addresses finds a place. A second address in
      the same group thus counts against the peer itself. */
  lemma {:induction false} AdmittedIff(
      counts: map<Group, set<PeerId>>, limit: nat, p: PeerId, groups: seq<Option<Group>>)
    ensures TakePlaces(counts, limit, p, groups).0 <==>
            forall i | 0 <= i < |groups| :: FindsPlace(counts, limit, p, groups, i)
  {
    if groups != [] {
      var n := |groups| - 1;
      var front := groups[..n];
      AdmittedIff(counts, limit, p, front);
      forall i | 0 <= i < n
        ensures FindsPlace(counts, limit, p, groups, i) <==> FindsPlace(counts, limit, p, front, i)
      {
        assert groups[..i] == front[..i];
      }
      if TakePlaces(counts, limit, p, front).0 {
        LastFindsPlace(counts, limit, p, groups);
      }
    }
  }

  /** So the only peer of a table is left out if two of its addresses share a group and the
      limit is one, although it would be alone in its group. */
  lemma LonePeerLeftOut(bucket: nat, p: PeerId, g: Group, groupsOf: Groups)
    requires bucket > 0 && groupsOf(p) == [Some(g), Some(g)]
    ensures Greedy(bucket, 1, groupsOf, [Some(p)]).peers == []
    ensures Greedy(bucket, 2, groupsOf, [Some(p)]).peers == [p]
  {
    var groups: seq<Option<Group>> := [Some(g), Some(g)];
    assert groups[..1] == [Some(g)] && groups[..0] == [];
    AdmittedIff(map[], 1, p, groups);
    AdmittedIff(map[], 2, p, groups);
    assert !FindsPlace(map[], 1, p, groups, 1);
    assert FindsPlace(map[], 2, p, groups, 0) && FindsPlace(map[], 2, p, groups, 1);
    var ranked: seq<Option<PeerId>> := [Some(p)];
    assert ranked[..0] == [];
  }

  /** A peer that is left out keeps the places it took: the next one is left out as well if it shares the
      group, although nobody chosen does. */
  lemma LeftOutTakesPlaces(bucket: nat, p: PeerId, q: PeerId, g: Group, groupsOf: Groups)
    requires bucket > 0 && p != q && groupsOf(p) == [Some(g), Some(g)] && groupsOf(q) == [Some(g)]
    ensures Greedy(bucket, 1, groupsOf, [Some(p), Some(q)]).peers == []
    ensures Greedy(bucket, 1, groupsOf, [Some(q)]).peers == [q]
  {
    var groups: seq<Option<Group>> := [Some(g), Some(g)];
    assert groups[..1] == [Some(g)] && groups[..0] == [];
    var used: map<Group, set<PeerId>> := map[g := {p}];
    assert TakePlaces(map[], 1, p, groups[..1]) == (true, used) by {
      assert groups[..1][..0] == [];
      assert Members(map[], g) + {p} == {p};
    }
    assert TakePlaces(map[], 1, p, groups) == (false, used) by {
      assert Members(used, g) == {p} && used[g := {p}] == used;
    }
    var two, one: seq<Option<PeerId>> := [Some(p), Some(q)], [Some(q)];
    assert two[..1] == [Some(p)] && two[..1][..0] == [] && one[..0] == [];
    assert Greedy(bucket, 1, groupsOf, two[..1]) == Scan(used, []);
    var alone: seq<Option<Group>> := [Some(g)];
    assert alone[..0] == [];
    assert !TakePlaces(used, 1, q, alone).0;
    assert TakePlaces(map[], 1, q, alone).0;
  }

  // ---------- Who is chosen ----------

  /** The peers of the first n entries that took up a place of a group. */
  ghost function Takers(limit: nat, groupsOf: Groups, ranked: seq<Option<PeerId>>, n: nat, g: Group): set<PeerId>
    requires n <= |ranked|
    decreases n, 0
  {
    set k | 0 <= k < n && Takes(limit, groupsOf, ranked, k, g) :: ranked[k].value
  }

  /** The k-th entry takes a place of a group if one of its addresses is in that group, and there was room for
      this one and for all before it. */
  ghost predicate Takes(limit: nat, groupsOf: Groups, ranked: seq<Option<PeerId>>, k: nat, g: Group)
    requires k < |ranked|
    decreases k, 3
  {
    && ranked[k].Some?
    && exists a | 0 <= a < |groupsOf(ranked[k].value)| :: TakesAt(limit, groupsOf, ranked, k, g, a)
  }

  ghost predicate TakesAt(limit: nat, groupsOf: Groups, ranked: seq<Option<PeerId>>, k: nat, g: Group, a: nat)
    requires k < |ranked| && ranked[k].Some? && a < |groupsOf(ranked[k].value)|
    decreases k, 2
  {
    && groupsOf(ranked[k].value)[a] == Some(g)
    && forall b | 0 <= b <= a :: HasRoom(limit, groupsOf, ranked, k, b)
  }

  /** There is room for an address without a group, and for one in whose group the earlier entries and the
      peer's own earlier addresses left a place. */
  ghost predicate HasRoom(limit: nat, groupsOf: Groups, ranked: seq<Option<PeerId>>, k: nat, b: nat)
    requires k < |ranked| && ranked[k].Some? && b < |groupsOf(ranked[k].value)|
    decreases k, 1
  {
    var p := ranked[k].value;
    var groups := groupsOf(p);
    groups[b].Some? ==>
      |Takers(limit, groupsOf, ranked, k, groups[b].value) + (if groups[b] in groups[..b] then {p} else {})| < limit
  }

  /** The k-th entry has a peer, and unless there is no limit there is room for all addresses of it. */
  ghost predicate Fits(limit: nat, groupsOf: Groups, ranked: seq<Option<PeerId>>, k: nat)
    requires k < |ranked|
  {
    && ranked[k].Some?
    && (limit == 0 || forall b | 0 <= b < |groupsOf(ranked[k].value)| :: HasRoom(limit, groupsOf, ranked, k, b))
  }

  /** Which of the first n entries fit, in order. */
  ghost function Fitting(limit: nat, groupsOf: Groups, ranked: seq<Option<PeerId>>, n: nat): (r: seq<nat>)
    requires n <= |ranked|
    ensures forall i | 0 <= i < |r| :: r[i] < n && Fits(limit, groupsOf, ranked, r[i])
  {
    if n == 0 then []
    else
      Fitting(limit, groupsOf, ranked, n - 1) + if Fits(limit, groupsOf, ranked, n - 1) then [n - 1] else []
  }

  ghost function PeersAt(ranked: seq<Option<PeerId>>, at: seq<nat>): seq<PeerId>
    requires forall i | 0 <= i < |at| :: at[i] < |ranked| && ranked[at[i]].Some?
  {
    seq(|at|, i requires 0 <= i < |at| => ranked[at[i]].value)
  }

  function FirstOf<T>(s: seq<T>, n: nat): seq<T> {
    if |s| > n then s[..n] else s
  }

  lemma TakersMore(limit: nat, groupsOf: Groups, ranked: seq<Option<PeerId>>, n: nat, g: Group)
    requires n < |ranked|
    ensures Takers(limit, groupsOf, ranked, n + 1, g) ==
            Takers(limit, groupsOf, ranked, n, g)
            + if Takes(limit, groupsOf, ranked, n, g) then {ranked[n].value} else {}
  {
  }

  /** The address is in the group and found a place, and so did all before it. */
  predicate FoundAt(
      counts: map<Group, set<PeerId>>, limit: nat, p: PeerId, groups: seq<Option<Group>>, g: Group, a: nat)
    requires a < |groups|
  {
    groups[a] == Some(g) && forall b | 0 <= b <= a :: FindsPlace(counts, limit, p, groups, b)
  }

  predicate FoundIn(counts: map<Group, set<PeerId>>, limit: nat, p: PeerId, groups: seq<Option<Group>>, g: Group) {
    exists a | 0 <= a < |groups| :: FoundAt(counts, limit, p, groups, g, a)
  }

  lemma FoundAtFront(
      counts: map<Group, set<PeerId>>, limit: nat, p: PeerId, groups: seq<Option<Group>>, g: Group, a: nat)
    requires a < |groups| - 1
    ensures FoundAt(counts, limit, p, groups, g, a) <==> FoundAt(counts, limit, p, groups[..|groups| - 1], g, a)
  {
    var front := groups[..|groups| - 1];
    forall b | 0 <= b <= a
      ensures FindsPlace(counts, limit, p, groups, b) <==> FindsPlace(counts, limit, p, front, b)
    {
      assert groups[..b] == front[..b];
    }
  }

  lemma FoundInMore(
      counts: map<Group, set<PeerId>>, limit: nat, p: PeerId, groups: seq<Option<Group>>, g: Group)
    requires groups != []
    ensures FoundIn(counts, limit, p, groups, g) <==>
            FoundIn(counts, limit, p, groups[..|groups| - 1], g)
            || (groups[|groups| - 1] == Some(g) && TakePlaces(counts, limit, p, groups).0)
  {
    var n := |groups| - 1;
    forall a | 0 <= a < n
      ensures FoundAt(counts, limit, p, groups, g, a) <==> FoundAt(counts, limit, p, groups[..n], g, a)
    {
      FoundAtFront(counts, limit, p, groups, g, a);
    }
    AdmittedIff(counts, limit, p, groups);
    assert FoundAt(counts, limit, p, groups, g, n) <==>
           groups[n] == Some(g) && TakePlaces(counts, limit, p, groups).0;
  }

  /** Trying a peer adds it to exactly the groups in which its addresses found places, even if it is refused
      in the end. */
  lemma {:induction false} PlacesAfter(
      counts: map<Group, set<PeerId>>, limit: nat, p: PeerId, groups: seq<Option<Group>>, g: Group)
    ensures Members(TakePlaces(counts, limit, p, groups).1, g) ==
            Members(counts, g) + if FoundIn(counts, limit, p, groups, g) then {p} else {}
  {
    if groups != [] {
      PlacesAfter(counts, limit, p, groups[..|groups| - 1], g);
      FoundInMore(counts, limit, p, groups, g);
    }
  }

  /** The counts hold what the first n entries took. */
  ghost predicate CountsTakers(
      counts: map<Group, set<PeerId>>, limit: nat, groupsOf: Groups, ranked: seq<Option<PeerId>>, n: nat)
    requires n <= |ranked|
  {
    forall g :: Members(counts, g) == Takers(limit, groupsOf, ranked, n, g)
  }

  lemma PlacesAreRoom(
      counts: map<Group, set<PeerId>>, limit: nat, groupsOf: Groups, ranked: seq<Option<PeerId>>, n: nat, b: nat)
    requires n < |ranked| && ranked[n].Some? && b < |groupsOf(ranked[n].value)|
    requires CountsTakers(counts, limit, groupsOf, ranked, n)
    ensures FindsPlace(counts, limit, ranked[n].value, groupsOf(ranked[n].value), b) <==>
            HasRoom(limit, groupsOf, ranked, n, b)
  {
  }

  lemma FoundIsTaken(
      counts: map<Group, set<PeerId>>, limit: nat, groupsOf: Groups, ranked: seq<Option<PeerId>>, n: nat, g: Group)
    requires n < |ranked| && ranked[n].Some? && CountsTakers(counts, limit, groupsOf, ranked, n)
    ensures FoundIn(counts, limit, ranked[n].value, groupsOf(ranked[n].value), g) <==>
            Takes(limit, groupsOf, ranked, n, g)
  {
    var p := ranked[n].value;
    var groups := groupsOf(p);
    forall b | 0 <= b < |groups|
      ensures FindsPlace(counts, limit, p, groups, b) <==> HasRoom(limit, groupsOf, ranked, n, b)
    {
      PlacesAreRoom(counts, limit, groupsOf, ranked, n, b);
    }
    forall a | 0 <= a < |groups|
      ensures FoundAt(counts, limit, p, groups, g, a) <==> TakesAt(limit, groupsOf, ranked, n, g, a)
    {
    }
  }

  lemma VisitTakes(
      counts: map<Group, set<PeerId>>, limit: nat, groupsOf: Groups, ranked: seq<Option<PeerId>>, n: nat)
    requires n < |ranked| && ranked[n].Some? && CountsTakers(counts, limit, groupsOf, ranked, n)
    ensures CountsTakers(TakePlaces(counts, limit, ranked[n].value, groupsOf(ranked[n].value)).1,
                         limit, groupsOf, ranked, n + 1)
  {
    var p := ranked[n].value;
    forall g
      ensures Members(TakePlaces(counts, limit, p, groupsOf(p)).1, g) ==
              Takers(limit, groupsOf, ranked, n + 1, g)
    {
      PlacesAfter(counts, limit, p, groupsOf(p), g);
      TakersMore(limit, groupsOf, ranked, n, g);
      FoundIsTaken(counts, limit, groupsOf, ranked, n, g);
    }
  }

  lemma VisitFits(
      counts: map<Group, set<PeerId>>, limit: nat, groupsOf: Groups, ranked: seq<Option<PeerId>>, n: nat)
    requires n < |ranked| && ranked[n].Some? && limit > 0 && CountsTakers(counts, limit, groupsOf, ranked, n)
    ensures TakePlaces(counts, limit, ranked[n].value, groupsOf(ranked[n].value)).0 <==>
            Fits(limit, groupsOf, ranked, n)
  {
    var p := ranked[n].value;
    forall b | 0 <= b < |groupsOf(p)|
      ensures FindsPlace(counts, limit, p, groupsOf(p), b) <==> HasRoom(limit, groupsOf, ranked, n, b)
    {
      PlacesAreRoom(counts, limit, groupsOf, ranked, n, b);
    }
    AdmittedIff(counts, limit, p, groupsOf(p));
  }

  /** The pass chooses the peers of the first entries that fit. */
  lemma {:induction false} GreedyIsFirstFitting(
      bucket: nat, limit: nat, groupsOf: Groups, ranked: seq<Option<PeerId>>, n: nat)
    requires n <= |ranked|
    ensures var s, fitting := Greedy(bucket, limit, groupsOf, ranked[..n]), Fitting(limit, groupsOf, ranked, n);
            && s.peers == PeersAt(ranked, FirstOf(fitting, bucket))
            && (limit > 0 && |fitting| < bucket ==> CountsTakers(s.counts, limit, groupsOf, ranked, n))
  {
    if n > 0 {
      assert ranked[..n][..n - 1] == ranked[..n - 1];
      GreedyIsFirstFitting(bucket, limit, groupsOf, ranked, n - 1);
      var s, fitting := Greedy(bucket, limit, groupsOf, ranked[..n - 1]), Fitting(limit, groupsOf, ranked, n - 1);
      if |fitting| < bucket && ranked[n - 1].Some? && limit > 0 {
        VisitTakes(s.counts, limit, groupsOf, ranked, n - 1);
        VisitFits(s.counts, limit, groupsOf, ranked, n - 1);
      }
    }
  }

  lemma {:induction false} FittingInOrder(limit: nat, groupsOf: Groups, ranked: seq<Option<PeerId>>, n: nat)
    requires n <= |ranked|
    ensures var fitting := Fitting(limit, groupsOf, ranked, n);
            && (forall i, j | 0 <= i < j < |fitting| :: fitting[i] < fitting[j])
            && (forall k | 0 <= k < n && Fits(limit, groupsOf, ranked, k) :: k in fitting)
  {
    if n > 0 {
      FittingInOrder(limit, groupsOf, ranked, n - 1);
    }
  }

  ghost predicate InOrder(at: seq<nat>) {
    forall i, j | 0 <= i < j < |at| :: at[i] < at[j]
  }

  function Below(at: seq<nat>, i: nat): set<nat> {
    set k | k in at && k < i
  }

  /** The first n of an ordered sequence are those with fewer than n chosen ones before them. */
  lemma FirstAreFewBelow(all: seq<nat>, n: nat, t: nat)
    requires InOrder(all) && t < |all|
    ensures all[t] in FirstOf(all, n) <==> |Below(FirstOf(all, n), all[t])| < n
  {
    var first := FirstOf(all, n);
    if t < |first| {
      assert first[t] == all[t];
      assert Below(first, all[t]) == Elements(first[..t]);
      NoDuplicatesCardinality(first[..t]);
    } else {
      assert forall i | 0 <= i < |first| :: first[i] == all[i] < all[t];
      assert Below(first, all[t]) == Elements(first);
      NoDuplicatesCardinality(first);
    }
  }

  /** Entries and their peers, chosen in order: an entry is chosen exactly if it fits and fewer than bucket
      entries before it are chosen. */
  ghost predicate Chooses(
      bucket: nat, limit: nat, groupsOf: Groups, ranked: seq<Option<PeerId>>, chosen: seq<nat>, peers: seq<PeerId>)
  {
    && InOrder(chosen) && |peers| == |chosen|
    && (forall i | 0 <= i < |chosen| :: chosen[i] < |ranked| && ranked[chosen[i]] == Some(peers[i]))
    && forall k | 0 <= k < |ranked| ::
         k in chosen <==> Fits(limit, groupsOf, ranked, k) && |Below(chosen, k)| < bucket
  }

  lemma GreedyChooses(bucket: nat, limit: nat, groupsOf: Groups, ranked: seq<Option<PeerId>>)
    returns (chosen: seq<nat>)
    ensures Chooses(bucket, limit, groupsOf, ranked, chosen, Greedy(bucket, limit, groupsOf, ranked).peers)
  {
    var all := Fitting(limit, groupsOf, ranked, |ranked|);
    chosen := FirstOf(all, bucket);
    assert ranked[..|ranked|] == ranked;
    GreedyIsFirstFitting(bucket, limit, groupsOf, ranked, |ranked|);
    FittingInOrder(limit, groupsOf, ranked, |ranked|);
    forall k | 0 <= k < |ranked|
      ensures k in chosen <==> Fits(limit, groupsOf, ranked, k) && |Below(chosen, k)| < bucket
    {
      if Fits(limit, groupsOf, ranked, k) {
        var t :| 0 <= t < |all| && all[t] == k;
        FirstAreFewBelow(all, bucket, t);
      }
    }
  }

  /** The peers that the entries have, in order. */
  function Present(ranked: seq<Option<PeerId>>): seq<PeerId> {
    if ranked == [] then []
    else
      var n := |ranked| - 1;
      Present(ranked[..n]) + if ranked[n].Some? then [ranked[n].value] else []
  }

  lemma {:induction false} AllFit(limit: nat, groupsOf: Groups, ranked: seq<Option<PeerId>>, n: nat)
    requires n <= |ranked| && forall k | 0 <= k < n && ranked[k].Some? :: Fits(limit, groupsOf, ranked, k)
    ensures PeersAt(ranked, Fitting(limit, groupsOf, ranked, n)) == Present(ranked[..n])
  {
    if n > 0 {
      AllFit(limit, groupsOf, ranked, n - 1);
      assert ranked[..n][..n - 1] == ranked[..n - 1];
    }
  }

  /** No two addresses of ranked peers share a group. */
  ghost predicate NoGroupShared(groupsOf: Groups, ranked: seq<Option<PeerId>>) {
    forall j, k, a, b |
      && 0 <= j < |ranked| && ranked[j].Some? && 0 <= a < |groupsOf(ranked[j].value)|
      && 0 <= k < |ranked| && ranked[k].Some? && 0 <= b < |groupsOf(ranked[k].value)|
      && groupsOf(ranked[j].value)[a].Some? && groupsOf(ranked[j].value)[a] == groupsOf(ranked[k].value)[b] ::
      j == k && a == b
  }

  lemma AlwaysRoom(limit: nat, groupsOf: Groups, ranked: seq<Option<PeerId>>, k: nat, b: nat)
    requires limit > 0 && NoGroupShared(groupsOf, ranked)
    requires k < |ranked| && ranked[k].Some? && b < |groupsOf(ranked[k].value)|
    ensures HasRoom(limit, groupsOf, ranked, k, b)
  {
    var groups := groupsOf(ranked[k].value);
    if groups[b].Some? {
      var g := groups[b].value;
      assert groups[b] !in groups[..b];
      forall j | 0 <= j < k
        ensures !Takes(limit, groupsOf, ranked, j, g)
      {
        assert forall a | ranked[j].Some? && 0 <= a < |groupsOf(ranked[j].value)| ::
            groupsOf(ranked[j].value)[a] != groups[b];
      }
      assert Takers(limit, groupsOf, ranked, k, g) == {};
    }
  }

  /** Without a limit, and if no two addresses share a group, the nearest peers are chosen. */
  lemma NearestUnlessShared(bucket: nat, limit: nat, groupsOf: Groups, ranked: seq<Option<PeerId>>)
    requires limit == 0 || NoGroupShared(groupsOf, ranked)
    ensures Greedy(bucket, limit, groupsOf, ranked).peers == FirstOf(Present(ranked), bucket)
  {
    forall k | 0 <= k < |ranked| && ranked[k].Some?
      ensures Fits(limit, groupsOf, ranked, k)
    {
      if limit > 0 {
        forall b | 0 <= b < |groupsOf(ranked[k].value)|
          ensures HasRoom(limit, groupsOf, ranked, k, b)
        {
          AlwaysRoom(limit, groupsOf, ranked, k, b);
        }
      }
    }
    assert ranked[..|ranked|] == ranked;
    AllFit(limit, groupsOf, ranked, |ranked|);
    GreedyIsFirstFitting(bucket, limit, groupsOf, ranked, |ranked|);
  }
}
