/** Which peers of a lookup are nearest to its target: the order that the lookup's peer set
    and its termination rules are stated in. */
module PeerOrder {
  import opened Base
  import opened KeySpace

  datatype PeerState = Heard | Waiting | Queried | Unreachable

  type Peers = map<PeerId, PeerState>

  /** The peers of m in one of the given states. */
  function Matching(m: Peers, states: set<PeerState>): set<PeerId> {
    set p | p in m && m[p] in states
  }

  ghost predicate Ascends(space: Space, r: seq<PeerId>) {
    forall i, j | 0 <= i < j < |r| :: space.dist(r[i]) < space.dist(r[j])
  }

  /** The members of s that are strictly nearer to the target than p. */
  ghost function Closer(space: Space, s: set<PeerId>, p: PeerId): set<PeerId> {
    set q | q in s && space.dist(q) < space.dist(p)
  }

  ghost function Nearest(space: Space, s: set<PeerId>): (p: PeerId)
    requires s != {}
    ensures p in s && forall q | q in s :: space.dist(p) <= space.dist(q)
  {
    var q :| q in s;
    if s == {q} then q
    else
      var p := Nearest(space, s - {q});
      assert forall x | x in s :: x == q || x in s - {q};
      if space.dist(q) < space.dist(p) then q else p
  }

  /** The members of s in ascending order of distance. */
  ghost function Ascending(space: Space, s: set<PeerId>): (r: seq<PeerId>) {
    if s == {} then []
    else
      var p := Nearest(space, s);
      [p] + Ascending(space, s - {p})
  }

  lemma AscendsCons(space: Space, p: PeerId, r: seq<PeerId>)
    requires Ascends(space, r)
    requires forall q | q in Elements(r) :: space.dist(p) < space.dist(q)
    ensures Ascends(space, [p] + r)
  {
  }

  lemma AscendsSnoc(space: Space, r: seq<PeerId>, p: PeerId)
    requires Ascends(space, r)
    requires forall q | q in Elements(r) :: space.dist(q) < space.dist(p)
    ensures Ascends(space, r + [p])
  {
  }

  lemma {:induction false} AscendingOrders(space: Space, s: set<PeerId>)
    requires space.Valid() && s <= space.universe
    ensures Ascends(space, Ascending(space, s))
    ensures Elements(Ascending(space, s)) == s
    ensures |Ascending(space, s)| == |s|
  {
    if s != {} {
      var p := Nearest(space, s);
      var rest := Ascending(space, s - {p});
      AscendingOrders(space, s - {p});
      assert Ascends(space, [p] + rest) by {
        AscendsCons(space, p, rest);
      }
      assert Elements([p] + rest) == s by {
        ElementsCons(p, rest);
      }
    }
  }

  /** The n peers of m nearest to the target among those in one of the given states. */
  ghost function ClosestN(space: Space, m: Peers, n: nat, states: set<PeerState>): seq<PeerId> {
    var all := Ascending(space, Matching(m, states));
    if |all| >= n then all[..n] else all
  }

  /** There is only one way to put a set of peers in ascending order. */
  lemma {:induction false} AscendingUnique(space: Space, r: seq<PeerId>, t: seq<PeerId>)
    requires Ascends(space, r) && Ascends(space, t) && Elements(r) == Elements(t)
    ensures r == t
  {
    NoDuplicatesCardinality(r);
    NoDuplicatesCardinality(t);
    if r != [] {
      assert r[0] in Elements(t) && t[0] in Elements(r);
      var j :| 0 <= j < |t| && t[j] == r[0];
      var i :| 0 <= i < |r| && r[i] == t[0];
      assert i == 0 && j == 0;
      HeadRemoved(space, r);
      HeadRemoved(space, t);
      AscendingUnique(space, r[1..], t[1..]);
    }
  }

  lemma HeadRemoved(space: Space, r: seq<PeerId>)
    requires Ascends(space, r) && r != []
    ensures Elements(r[1..]) == Elements(r) - {r[0]}
  {
  }

  /** In ascending order, the position of a peer is the number of nearer peers. */
  lemma PositionIsRank(space: Space, r: seq<PeerId>, i: nat)
    requires Ascends(space, r) && i < |r|
    ensures Closer(space, Elements(r), r[i]) == Elements(r[..i])
    ensures |Closer(space, Elements(r), r[i])| == i
  {
    forall q
      ensures q in Closer(space, Elements(r), r[i]) <==> q in Elements(r[..i])
    {
      if q in Closer(space, Elements(r), r[i]) {
        var j :| 0 <= j < |r| && r[j] == q;
        assert j < i;
        assert q == r[..i][j];
      }
    }
    NoDuplicatesCardinality(r[..i]);
  }

  /** A peer is among the n nearest exactly when fewer than n matching peers are nearer. */
  lemma InClosestN(space: Space, m: Peers, n: nat, states: set<PeerState>, p: PeerId)
    requires space.Valid() && m.Keys <= space.universe
    requires p in Matching(m, states)
    ensures p in ClosestN(space, m, n, states) <==> |Closer(space, Matching(m, states), p)| < n
  {
    var all := Ascending(space, Matching(m, states));
    AscendingOrders(space, Matching(m, states));
    assert p in Elements(all);
    var i :| 0 <= i < |all| && all[i] == p;
    PositionIsRank(space, all, i);
    if i < n {
      assert p == ClosestN(space, m, n, states)[i];
    } else if j :| 0 <= j < n && j < |all| && all[j] == p {
      assert false;
    }
  }

  lemma ClosestNShape(space: Space, m: Peers, n: nat, states: set<PeerState>)
    requires space.Valid() && m.Keys <= space.universe
    ensures var r := ClosestN(space, m, n, states);
            Ascends(space, r) && Elements(r) <= Matching(m, states)
            && |r| == |Elements(r)|
            && |r| == if |Matching(m, states)| < n then |Matching(m, states)| else n
  {
    var all := Ascending(space, Matching(m, states));
    AscendingOrders(space, Matching(m, states));
    PrefixKeeps(space, all, if |all| >= n then n else |all|);
  }

  lemma PrefixKeeps(space: Space, all: seq<PeerId>, n: nat)
    requires Ascends(space, all) && n <= |all|
    ensures Ascends(space, all[..n]) && Elements(all[..n]) <= Elements(all)
    ensures |Elements(all[..n])| == n
  {
    assert Elements(all[..n]) <= Elements(all) by {
      assert all == all[..n] + all[n..];
    }
    NoDuplicatesCardinality(all[..n]);
  }
}

/** The lazily sorted peer set of one lookup. */
module PeerSet {
  import opened Base
  import opened KeySpace
  import opened PeerOrder

  datatype Entry = Entry(id: PeerId, distance: nat, state: PeerState, referredBy: PeerId)

  ghost predicate UniqueIds(all: seq<Entry>) {
    forall i, j | 0 <= i < j < |all| :: all[i].id != all[j].id
  }

  ghost predicate SortedByDistance(all: seq<Entry>) {
    forall i, j | 0 <= i < j < |all| :: all[i].distance <= all[j].distance
  }

  /** The entries, by the peer they are about. */
  ghost function ById(all: seq<Entry>): map<PeerId, Entry> {
    if all == [] then map[]
    else
      var last := all[|all| - 1];
      ById(all[..|all| - 1])[last.id := last]
  }

  /** The states that the entries give to the peers they name. */
  ghost function StatesOf(m: map<PeerId, Entry>): Peers {
    map p | p in m :: m[p].state
  }

  lemma ByIdAppend(all: seq<Entry>, e: Entry)
    ensures ById(all + [e]) == ById(all)[e.id := e]
  {
  }

  /** Every entry is found under its own ID, and nothing else is. */
  lemma {:induction false} ByIdFinds(all: seq<Entry>)
    requires UniqueIds(all)
    ensures forall i | 0 <= i < |all| :: all[i].id in ById(all) && ById(all)[all[i].id] == all[i]
    ensures forall p | p in ById(all) :: ById(all)[p] in all && ById(all)[p].id == p
  {
    if all != [] {
      ByIdFinds(all[..|all| - 1]);
    }
  }

  lemma UnknownIsNew(all: seq<Entry>, e: Entry)
    requires UniqueIds(all) && e.id !in ById(all)
    ensures UniqueIds(all + [e])
  {
    ByIdFinds(all);
  }

  lemma {:induction false} ByIdUpdate(all: seq<Entry>, i: nat, e: Entry)
    requires UniqueIds(all) && i < |all| && e.id == all[i].id
    ensures UniqueIds(all[i := e])
    ensures ById(all[i := e]) == ById(all)[e.id := e]
  {
    var n := |all| - 1;
    if i == n {
      assert all[i := e] == all[..n] + [e];
      ByIdAppend(all[..n], e);
    } else {
      ByIdUpdate(all[..n], i, e);
      assert all[i := e][..n] == all[..n][i := e];
    }
  }

  /** Insert an entry behind the ones that are not farther. */
  function Insert(e: Entry, all: seq<Entry>): (r: seq<Entry>)
    ensures r != []
  {
    if all == [] || e.distance < all[0].distance then [e] + all
    else [all[0]] + Insert(e, all[1..])
  }

  function SortEntries(all: seq<Entry>): seq<Entry> {
    if all == [] then [] else Insert(all[|all| - 1], SortEntries(all[..|all| - 1]))
  }

  lemma {:induction false} InsertSorts(e: Entry, all: seq<Entry>)
    requires SortedByDistance(all)
    ensures SortedByDistance(Insert(e, all))
    ensures Insert(e, all)[0].distance ==
            if all == [] || e.distance < all[0].distance then e.distance else all[0].distance
  {
    if all != [] && all[0].distance <= e.distance {
      InsertSorts(e, all[1..]);
    }
  }

  lemma {:induction false} InsertAdds(e: Entry, all: seq<Entry>)
    ensures multiset(Insert(e, all)) == multiset(all) + multiset{e}
  {
    if all != [] && all[0].distance <= e.distance {
      InsertAdds(e, all[1..]);
      assert all == [all[0]] + all[1..];
    }
  }

  /** Sorting orders the entries and loses, adds and changes none of them. */
  lemma {:induction false} SortEntriesSorts(all: seq<Entry>)
    ensures SortedByDistance(SortEntries(all))
    ensures multiset(SortEntries(all)) == multiset(all)
  {
    if all != [] {
      var front := all[..|all| - 1];
      assert all == front + [all[|all| - 1]];
      SortEntriesSorts(front);
      InsertSorts(all[|all| - 1], SortEntries(front));
      InsertAdds(all[|all| - 1], SortEntries(front));
    }
  }

  lemma SameEntries(a: seq<Entry>, b: seq<Entry>)
    requires multiset(a) == multiset(b)
    ensures |a| == |b|
    ensures forall e :: e in a <==> e in b
  {
    assert |multiset(a)| == |multiset(b)|;
    assert forall e :: e in a <==> e in multiset(a);
    assert forall e :: e in b <==> e in multiset(b);
  }

  lemma PermutationUnique(a: seq<Entry>, b: seq<Entry>)
    requires UniqueIds(a) && multiset(a) == multiset(b)
    ensures UniqueIds(b)
  {
    SameEntries(a, b);
    forall i, j | 0 <= i < j < |b|
      ensures b[i].id != b[j].id
    {
      assert b[i] in a && b[j] in a;
      if b[i].id == b[j].id {
        TwiceInMultiset(b, i, j);
        OneOccurrence(a, b[i]);
      }
    }
  }

  /** Entries in another order hold the same information. */
  lemma PermutationKeeps(a: seq<Entry>, b: seq<Entry>)
    requires UniqueIds(a) && multiset(a) == multiset(b)
    ensures UniqueIds(b) && |a| == |b|
    ensures ById(a) == ById(b)
  {
    SameEntries(a, b);
    PermutationUnique(a, b);
    ByIdFinds(a);
    ByIdFinds(b);
    forall p
      ensures p in ById(a) <==> p in ById(b)
      ensures p in ById(a) ==> ById(a)[p] == ById(b)[p]
    {
      if p in ById(a) {
        assert ById(a)[p] in b;
      }
      if p in ById(b) {
        assert ById(b)[p] in a;
      }
    }
  }

  lemma OneOccurrence(a: seq<Entry>, e: Entry)
    requires UniqueIds(a) && e in a
    ensures multiset(a)[e] == 1
  {
    var k :| 0 <= k < |a| && a[k] == e;
    assert a == a[..k] + [e] + a[k + 1..];
    assert e !in a[..k] && e !in a[k + 1..];
  }

  /** The IDs of the entries in one of the given states, in order. */
  function Filtered(all: seq<Entry>, states: set<PeerState>): seq<PeerId> {
    if all == [] then []
    else
      var last := all[|all| - 1];
      Filtered(all[..|all| - 1], states) + (if last.state in states then [last.id] else [])
  }

  ghost predicate Measured(space: Space, all: seq<Entry>) {
    forall i | 0 <= i < |all| :: all[i].id in space.universe && all[i].distance == space.dist(all[i].id)
  }

  /** Filtering entries sorted by distance lists the matching peers in ascending order. */
  lemma {:induction false} FilteredAscends(space: Space, all: seq<Entry>, states: set<PeerState>)
    requires space.Valid() && UniqueIds(all) && SortedByDistance(all) && Measured(space, all)
    ensures Ascends(space, Filtered(all, states))
    ensures Elements(Filtered(all, states)) == Matching(StatesOf(ById(all)), states)
  {
    if all != [] {
      var n := |all| - 1;
      var front, last := all[..n], all[n];
      FilteredAscends(space, front, states);
      var f := Filtered(front, states);
      assert last.id !in ById(front) by {
        ByIdFinds(front);
      }
      assert Matching(StatesOf(ById(all)), states) ==
             Matching(StatesOf(ById(front)), states) + (if last.state in states then {last.id} else {});
      if last.state in states {
        assert Ascends(space, f + [last.id]) by {
          LastIsFarthest(space, all, states);
          AscendsSnoc(space, f, last.id);
        }
        assert Elements(f + [last.id]) == Elements(f) + {last.id} by {
          ElementsAppend(f, last.id);
        }
      }
    }
  }

  lemma LastIsFarthest(space: Space, all: seq<Entry>, states: set<PeerState>)
    requires space.Valid() && UniqueIds(all) && SortedByDistance(all) && all != [] && Measured(space, all)
    requires Elements(Filtered(all[..|all| - 1], states)) == Matching(StatesOf(ById(all[..|all| - 1])), states)
    ensures forall p | p in Elements(Filtered(all[..|all| - 1], states)) ::
              space.dist(p) < space.dist(all[|all| - 1].id)
  {
    var n := |all| - 1;
    ByIdFinds(all[..n]);
    forall p | p in Elements(Filtered(all[..n], states))
      ensures space.dist(p) < space.dist(all[n].id)
    {
      var i :| 0 <= i < n && all[..n][i] == ById(all[..n])[p];
    }
  }

  class QueryPeerset {
    const space: Space
    var all: seq<Entry>
    var sorted: bool

    ghost predicate Valid()
      reads this
    {
      && space.Valid()
      && UniqueIds(all)
      && Measured(space, all)
      && (sorted ==> SortedByDistance(all))
    }

    /** The set as a finite map. */
    ghost function Contents(): map<PeerId, Entry>
      reads this
    {
      ById(all)
    }

    ghost function States(): Peers
      reads this
    {
      StatesOf(Contents())
    }

    constructor (space: Space)
      requires space.Valid()
      ensures Valid() && this.space == space
      ensures Contents() == map[]
    {
      this.space := space;
      all := [];
      sorted := false;
    }

    /** All peers of the set belong to the universe, and every peer has an entry of its own. */
    lemma KeysInUniverse()
      requires Valid()
      ensures States().Keys <= space.universe
      ensures |States().Keys| == |all|
    {
      ByIdFinds(all);
      var ids := seq(|all|, i requires 0 <= i < |all| reads this => all[i].id);
      NoDuplicatesCardinality(ids);
      assert Elements(ids) == States().Keys by {
        assert forall i | 0 <= i < |all| :: ids[i] in States().Keys;
        forall p | p in States().Keys
          ensures p in Elements(ids)
        {
          var i :| 0 <= i < |all| && all[i] == ById(all)[p];
          assert ids[i] == p;
        }
      }
    }

    method Find(p: PeerId) returns (index: int)
      requires Valid()
      ensures index == -1 <==> p !in Contents()
      ensures index != -1 ==> 0 <= index < |all| && all[index].id == p && all[index] == Contents()[p]
    {
      ByIdFinds(all);
      for i := 0 to |all|
        invariant forall j | 0 <= j < i :: all[j].id != p
      {
        if all[i].id == p {
          return i;
        }
      }
      return -1;
    }

    method TryAdd(p: PeerId, referredBy: PeerId) returns (added: bool)
      requires Valid() && p in space.universe
      modifies this
      ensures Valid()
      ensures added <==> p !in old(Contents())
      ensures added ==> Contents() == old(Contents())[p := Entry(p, space.dist(p), Heard, referredBy)]
      ensures !added ==> Contents() == old(Contents())
    {
      var i := Find(p);
      if i >= 0 {
        return false;
      }
      var e := Entry(p, space.dist(p), Heard, referredBy);
      UnknownIsNew(all, e);
      ByIdAppend(all, e);
      all := all + [e];
      sorted := false;
      return true;
    }

    /** Bring the entries in ascending order, unless they already are. */
    method Sort()
      requires Valid()
      modifies this
      ensures Valid() && sorted
      ensures Contents() == old(Contents())
    {
      if sorted {
        return;
      }
      SortEntriesSorts(all);
      PermutationKeeps(all, SortEntries(all));
      PermutationMeasured(space, all, SortEntries(all));
      all := SortEntries(all);
      sorted := true;
    }

    /** Set the state of a known peer; the program panics on an unknown one. */
    method SetState(p: PeerId, s: PeerState)
      requires Valid() && p in Contents()
      modifies this
      ensures Valid() && sorted == old(sorted)
      ensures Contents() == old(Contents())[p := old(Contents())[p].(state := s)]
    {
      var i := Find(p);
      var e := all[i].(state := s);
      ByIdUpdate(all, i, e);
      all := all[i := e];
    }

    method GetState(p: PeerId) returns (s: PeerState)
      requires Valid() && p in Contents()
      ensures s == States()[p]
    {
      var i := Find(p);
      s := all[i].state;
    }

    method GetReferrer(p: PeerId) returns (referrer: PeerId)
      requires Valid() && p in Contents()
      ensures referrer == Contents()[p].referredBy
    {
      var i := Find(p);
      referrer := all[i].referredBy;
    }

    /** The n nearest peers in one of the given states, nearest first. A negative n makes
        the program slice out of range as soon as it has a result to cut. */
    method GetClosestNInStates(n: int, states: set<PeerState>) returns (result: seq<PeerId>)
      requires Valid() && n >= 0
      modifies this
      ensures Valid() && sorted
      ensures Contents() == old(Contents())
      ensures result == ClosestN(space, States(), n, states)
    {
      Sort();
      result := [];
      for i := 0 to |all|
        invariant result == Filtered(all[..i], states)
      {
        assert all[..i + 1][..i] == all[..i];
        if all[i].state in states {
          result := result + [all[i].id];
        }
      }
      assert result == Ascending(space, Matching(States(), states)) by {
        assert all[..|all|] == all;
        FilteredAscends(space, all, states);
        KeysInUniverse();
        AscendingOrders(space, Matching(States(), states));
        AscendingUnique(space, result, Ascending(space, Matching(States(), states)));
      }
      if |result| >= n {
        result := result[..n];
      }
    }

    /** All peers in one of the given states, nearest first. */
    method GetClosestInStates(states: set<PeerState>) returns (result: seq<PeerId>)
      requires Valid()
      modifies this
      ensures Valid() && sorted
      ensures Contents() == old(Contents())
      ensures result == Ascending(space, Matching(States(), states))
      ensures |result| == |Matching(States(), states)|
    {
      KeysInUniverse();
      SubsetCardinality(Matching(States(), states), States().Keys);
      AscendingOrders(space, Matching(States(), states));
      result := GetClosestNInStates(|all|, states);
    }

    method NumHeard() returns (n: nat)
      requires Valid()
      modifies this
      ensures Valid() && Contents() == old(Contents())
      ensures n == |Matching(States(), {Heard})|
    {
      var r := GetClosestInStates({Heard});
      n := |r|;
    }

    method NumWaiting() returns (n: nat)
      requires Valid()
      modifies this
      ensures Valid() && Contents() == old(Contents())
      ensures n == |Matching(States(), {Waiting})|
    {
      var r := GetClosestInStates({Waiting});
      n := |r|;
    }
  }

  lemma PermutationMeasured(space: Space, a: seq<Entry>, b: seq<Entry>)
    requires multiset(a) == multiset(b) && Measured(space, a)
    ensures Measured(space, b)
  {
    forall i | 0 <= i < |b|
      ensures b[i].id in space.universe && b[i].distance == space.dist(b[i].id)
    {
      assert b[i] in multiset(a);
    }
  }
}
