/** The IP diversity filter for answers of other peers: peers of overrepresented groups are dropped. */
module ResponseFilter {
  import opened Base

  /** A peer of an answer, with the IP groups of its addresses; None for an address without one. */
  datatype AddrInfo = AddrInfo(id: PeerId, groups: seq<Option<Group>>)

  /** The distinct peers of an answer with an address in a group. */
  function PeersIn(peers: seq<AddrInfo>, g: Group): set<PeerId> {
    set i | 0 <= i < |peers| && Some(g) in peers[i].groups :: peers[i].id
  }

  /** Whether a peer shares a group with too many others. */
  ghost predicate Crowded(peers: seq<AddrInfo>, limit: int, p: PeerId) {
    exists g :: p in PeersIn(peers, g) && |PeersIn(peers, g)| > limit
  }

  /** The entries, in order, of the peers that are not crowded in the whole answer. */
  ghost function Kept(peers: seq<AddrInfo>, all: seq<AddrInfo>, limit: int): seq<AddrInfo> {
    if peers == [] then []
    else
      var n := |peers| - 1;
      Kept(peers[..n], all, limit) + (if Crowded(all, limit, peers[n].id) then [] else [peers[n]])
  }

  lemma {:induction false} KeptMembers(peers: seq<AddrInfo>, all: seq<AddrInfo>, limit: int, ai: AddrInfo)
    ensures ai in Kept(peers, all, limit) <==> ai in peers && !Crowded(all, limit, ai.id)
  {
    if peers != [] {
      KeptMembers(peers[..|peers| - 1], all, limit, ai);
    }
  }

  /** A limit of zero means none. */
  ghost function Diverse(peers: seq<AddrInfo>, limit: int): seq<AddrInfo> {
    if limit == 0 then peers else Kept(peers, peers, limit)
  }

  /** The entries at these positions, in order, which are those that are not crowded. */
  ghost predicate Keeps(peers: seq<AddrInfo>, all: seq<AddrInfo>, limit: int, at: seq<nat>, kept: seq<AddrInfo>) {
    && |kept| == |at| && (forall i, j | 0 <= i < j < |at| :: at[i] < at[j])
    && (forall i | 0 <= i < |at| :: at[i] < |peers| && kept[i] == peers[at[i]])
    && forall k | 0 <= k < |peers| :: k in at <==> !Crowded(all, limit, peers[k].id)
  }

  lemma KeepsMore(
      peers: seq<AddrInfo>, ai: AddrInfo, all: seq<AddrInfo>, limit: int, at: seq<nat>, kept: seq<AddrInfo>)
    requires Keeps(peers, all, limit, at, kept)
    ensures if Crowded(all, limit, ai.id) then Keeps(peers + [ai], all, limit, at, kept)
            else Keeps(peers + [ai], all, limit, at + [|peers|], kept + [ai])
  {
    var n := |peers|;
    assert forall k | 0 <= k < n :: (peers + [ai])[k] == peers[k];
    assert n !in at;
    assert forall k :: k in at + [n] <==> k in at || k == n by {
      assert (at + [n])[|at|] == n;
    }
  }

  lemma {:induction false} KeptPositions(peers: seq<AddrInfo>, all: seq<AddrInfo>, limit: int) returns (at: seq<nat>)
    ensures Keeps(peers, all, limit, at, Kept(peers, all, limit))
  {
    at := [];
    if peers != [] {
      var n := |peers| - 1;
      at := KeptPositions(peers[..n], all, limit);
      KeepsMore(peers[..n], peers[n], all, limit, at, Kept(peers[..n], all, limit));
      assert peers[..n] + [peers[n]] == peers;
      if !Crowded(all, limit, peers[n].id) {
        at := at + [n];
      }
    }
  }

  /** at are the positions of the entries that are kept. */
  method FilterPeersByIPDiversity(newPeers: seq<AddrInfo>, limit: int)
    returns (filtered: seq<AddrInfo>, ghost at: seq<nat>)
    ensures filtered == Diverse(newPeers, limit)
    ensures if limit == 0 then filtered == newPeers else Keeps(newPeers, newPeers, limit, at, filtered)
  {
    at := [];
    if limit == 0 {
      return newPeers, at;
    }
    at := KeptPositions(newPeers, newPeers, limit);
    var ipGroupPeers := PeersByGroup(newPeers);
    var peersToRemove := CrowdedPeers(newPeers, ipGroupPeers, limit);
    if |peersToRemove| == 0 {
      NobodyCrowded(newPeers, newPeers, limit);
      return newPeers, at;
    }
    filtered := [];
    for i := 0 to |newPeers|
      invariant filtered == Kept(newPeers[..i], newPeers, limit)
    {
      assert newPeers[..i + 1][..i] == newPeers[..i];
      if newPeers[i].id !in peersToRemove {
        filtered := filtered + [newPeers[i]];
      }
    }
    assert newPeers[..|newPeers|] == newPeers;
  }

  lemma {:induction false} NobodyCrowded(peers: seq<AddrInfo>, all: seq<AddrInfo>, limit: int)
    requires forall ai | ai in peers :: !Crowded(all, limit, ai.id)
    ensures Kept(peers, all, limit) == peers
  {
    if peers != [] {
      NobodyCrowded(peers[..|peers| - 1], all, limit);
    }
  }

  /** The peers of every group that occurs. */
  ghost predicate GroupsPeers(groups: map<Group, set<PeerId>>, peers: seq<AddrInfo>) {
    forall g :: (if g in groups then groups[g] else {}) == PeersIn(peers, g) && (g in groups ==> groups[g] != {})
  }

  method PeersByGroup(newPeers: seq<AddrInfo>) returns (ipGroupPeers: map<Group, set<PeerId>>)
    ensures GroupsPeers(ipGroupPeers, newPeers)
  {
    ipGroupPeers := map[];
    for i := 0 to |newPeers|
      invariant GroupsPeers(ipGroupPeers, newPeers[..i])
    {
      ghost var seen := newPeers[..i];
      var ai := newPeers[i];
      NoGroups(seen, ai);
      for j := 0 to |ai.groups|
        invariant GroupsPeers(ipGroupPeers, seen + [AddrInfo(ai.id, ai.groups[..j])])
      {
        MoreGroups(seen, ai, j);
        if ai.groups[j] == None {
          continue;
        }
        var group := ai.groups[j].value;
        if group !in ipGroupPeers {
          ipGroupPeers := ipGroupPeers[group := {}];
        }
        ipGroupPeers := ipGroupPeers[group := ipGroupPeers[group] + {ai.id}];
      }
      assert AddrInfo(ai.id, ai.groups[..|ai.groups|]) == ai;
      assert newPeers[..i + 1] == seen + [ai];
    }
    assert newPeers[..|newPeers|] == newPeers;
  }

  lemma PeersInMore(peers: seq<AddrInfo>, ai: AddrInfo, g: Group)
    ensures PeersIn(peers + [ai], g) == PeersIn(peers, g) + if Some(g) in ai.groups then {ai.id} else {}
  {
    var more := peers + [ai];
    assert more[|peers|] == ai;
    assert forall i | 0 <= i < |peers| :: more[i] == peers[i];
  }

  lemma NoGroups(peers: seq<AddrInfo>, ai: AddrInfo)
    ensures forall g :: PeersIn(peers + [AddrInfo(ai.id, ai.groups[..0])], g) == PeersIn(peers, g)
  {
    forall g
      ensures PeersIn(peers + [AddrInfo(ai.id, ai.groups[..0])], g) == PeersIn(peers, g)
    {
      PeersInMore(peers, AddrInfo(ai.id, ai.groups[..0]), g);
    }
  }

  lemma MoreGroups(peers: seq<AddrInfo>, ai: AddrInfo, j: nat)
    requires j < |ai.groups|
    ensures forall g :: PeersIn(peers + [AddrInfo(ai.id, ai.groups[..j + 1])], g) ==
                        PeersIn(peers + [AddrInfo(ai.id, ai.groups[..j])], g) +
                        if ai.groups[j] == Some(g) then {ai.id} else {}
  {
    forall g
      ensures PeersIn(peers + [AddrInfo(ai.id, ai.groups[..j + 1])], g) ==
              PeersIn(peers + [AddrInfo(ai.id, ai.groups[..j])], g) + if ai.groups[j] == Some(g) then {ai.id} else {}
    {
      PeersInMore(peers, AddrInfo(ai.id, ai.groups[..j + 1]), g);
      PeersInMore(peers, AddrInfo(ai.id, ai.groups[..j]), g);
      assert ai.groups[..j + 1] == ai.groups[..j] + [ai.groups[j]];
    }
  }

  method CrowdedPeers(newPeers: seq<AddrInfo>, ipGroupPeers: map<Group, set<PeerId>>, limit: int)
    returns (peersToRemove: set<PeerId>)
    requires GroupsPeers(ipGroupPeers, newPeers)
    ensures forall p :: p in peersToRemove <==> Crowded(newPeers, limit, p)
  {
    peersToRemove := {};
    var groups := ipGroupPeers.Keys;
    while groups != {}
      invariant groups <= ipGroupPeers.Keys
      invariant forall p | p in peersToRemove :: Crowded(newPeers, limit, p)
      invariant forall g | g in ipGroupPeers.Keys - groups && |ipGroupPeers[g]| > limit ::
                  ipGroupPeers[g] <= peersToRemove
    {
      var g :| g in groups;
      assert ipGroupPeers[g] == PeersIn(newPeers, g);
      if |ipGroupPeers[g]| > limit {
        peersToRemove := peersToRemove + ipGroupPeers[g];
      }
      groups := groups - {g};
    }
    forall p | Crowded(newPeers, limit, p)
      ensures p in peersToRemove
    {
      var g :| p in PeersIn(newPeers, g) && |PeersIn(newPeers, g)| > limit;
      assert g in ipGroupPeers && ipGroupPeers[g] == PeersIn(newPeers, g);
    }
  }

  /** A group loses nobody, or everybody if it was crowded, and peers of a crowded group may be
      missing from others. */
  lemma GroupAfter(peers: seq<AddrInfo>, limit: int, g: Group)
    requires limit != 0
    ensures PeersIn(Diverse(peers, limit), g) ==
            set p | p in PeersIn(peers, g) && !Crowded(peers, limit, p)
    ensures |PeersIn(peers, g)| > limit ==> PeersIn(Diverse(peers, limit), g) == {}
  {
    var kept := Diverse(peers, limit);
    forall p
      ensures p in PeersIn(kept, g) <==> p in PeersIn(peers, g) && !Crowded(peers, limit, p)
    {
      if p in PeersIn(kept, g) {
        var i :| 0 <= i < |kept| && Some(g) in kept[i].groups && kept[i].id == p;
        KeptMembers(peers, peers, limit, kept[i]);
      }
      if p in PeersIn(peers, g) && !Crowded(peers, limit, p) {
        var i :| 0 <= i < |peers| && Some(g) in peers[i].groups && peers[i].id == p;
        KeptMembers(peers, peers, limit, peers[i]);
      }
    }
  }

  /** With a positive limit no group keeps more peers than that. */
  lemma GroupsWithinLimit(peers: seq<AddrInfo>, limit: int, g: Group)
    requires limit > 0
    ensures |PeersIn(Diverse(peers, limit), g)| <= limit
  {
    GroupAfter(peers, limit, g);
    if |PeersIn(peers, g)| <= limit {
      SubsetCardinality(PeersIn(Diverse(peers, limit), g), PeersIn(peers, g));
    }
  }

  /** Filtering twice is filtering once. */
  lemma FilterIdempotent(peers: seq<AddrInfo>, limit: int)
    ensures Diverse(Diverse(peers, limit), limit) == Diverse(peers, limit)
  {
    if limit != 0 {
      var kept := Diverse(peers, limit);
      forall ai | ai in kept
        ensures !Crowded(kept, limit, ai.id)
      {
        KeptMembers(peers, peers, limit, ai);
        forall g | ai.id in PeersIn(kept, g)
          ensures |PeersIn(kept, g)| <= limit
        {
          GroupAfter(peers, limit, g);
          SubsetCardinality(PeersIn(kept, g), PeersIn(peers, g));
        }
      }
      NobodyCrowded(kept, kept, limit);
    }
  }
}
