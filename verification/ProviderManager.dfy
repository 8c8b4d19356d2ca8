/** The provider manager as the program writes it: cached provider sets are objects that adds
    change in place, and each case of the event loop is a method. Every method takes exactly
    the step of the state machine in module ProviderStore. */
module ProviderManagement {
  import opened Base
  import opened ProviderCodec
  import opened ProviderStore

  /** The providers of a content key in the order they were added, and when. */
  class ProviderSet {
    var providers: seq<PeerId>
    var times: map<PeerId, int>

    ghost predicate Valid()
      reads this
    {
      NoDuplicates(providers) && Elements(providers) == times.Keys
    }

    constructor ()
      ensures Valid() && providers == [] && times == map[]
    {
      providers := [];
      times := map[];
    }

    method SetVal(p: PeerId, t: int)
      requires Valid()
      modifies this
      ensures Valid()
      ensures times == old(times)[p := t]
      ensures providers == if p in old(times) then old(providers) else old(providers) + [p]
    {
      if p !in times {
        assert p !in Elements(providers);
        ElementsAppend(providers, p);
        providers := providers + [p];
      }
      times := times[p := t];
    }
  }

  /** A load that has dealt with the found records other than those in todo. */
  ghost predicate LoadSoFar(
      validity: nat, d: Names, k: ContentKey, now: int, todo: set<string>, times: map<PeerId, int>)
  {
    && (forall name | Kept(validity, d, k, now, name) && name !in todo :: ProviderOf(name).value in times)
    && (forall p | p in times ::
          exists name | Kept(validity, d, k, now, name) ::
            ProviderOf(name) == Some(p) && ReadTimeValue(d[name]) == Some(times[p]))
  }

  /** The datastore while a load still has the records in todo to deal with. */
  function LoadedSoFar(validity: nat, d: Names, k: ContentKey, now: int, todo: set<string>): Names {
    map name | name in d && (name in todo || !Dropped(validity, d, k, now, name)) :: d[name]
  }

  lemma DropStep(
      validity: nat, d: Names, k: ContentKey, now: int, todo: set<string>, name: string, times: map<PeerId, int>)
    requires LoadSoFar(validity, d, k, now, todo, times) && Dropped(validity, d, k, now, name)
    ensures LoadSoFar(validity, d, k, now, todo - {name}, times)
    ensures LoadedSoFar(validity, d, k, now, todo - {name}) == LoadedSoFar(validity, d, k, now, todo) - {name}
  {
  }

  lemma LoadStep(
      validity: nat, d: Names, k: ContentKey, now: int, todo: set<string>, name: string,
      times: map<PeerId, int>, p: PeerId, t: int)
    requires LoadSoFar(validity, d, k, now, todo, times)
    requires Kept(validity, d, k, now, name) && ProviderOf(name) == Some(p) && ReadTimeValue(d[name]) == Some(t)
    ensures LoadSoFar(validity, d, k, now, todo - {name}, times[p := t])
    ensures LoadedSoFar(validity, d, k, now, todo - {name}) == LoadedSoFar(validity, d, k, now, todo)
  {
  }

  class ProviderManager {
    const validity: nat
    var cache: map<ContentKey, ProviderSet>
    var dstore: Names
    var gcQueryRes: Option<Names>
    var gcSkip: set<string>
    var gcTime: int
    ghost var clock: int
    ghost var purged: int

    ghost predicate Valid()
      reads this`cache, cache.Values
    {
      && (forall k | k in cache :: cache[k].Valid())
      && (forall k, k' | k in cache && k' in cache && cache[k] == cache[k'] :: k == k')
    }

    ghost function Cached(): map<ContentKey, map<PeerId, int>>
      reads this`cache, cache.Values
    {
      map k | k in cache :: cache[k].times
    }

    ghost function View(): Store
      reads this, cache.Values
    {
      Store(
        Cached(),
        dstore,
        match gcQueryRes { case Some(pending) => Some(Gc(pending, gcSkip)) case None => None },
        gcTime, clock, purged)
    }

    constructor (validity: nat, dstore: Names, ghost now: int, gcTime: int)
      requires gcTime == now
      ensures Valid() && this.validity == validity && View() == Start(dstore, now)
    {
      this.validity := validity;
      this.dstore := dstore;
      this.gcTime := gcTime;
      cache := map[];
      gcQueryRes := None;
      gcSkip := {};
      clock := now;
      purged := now;
    }

    method AddProv(k: ContentKey, p: PeerId, now: int)
      requires Valid() && clock <= now && IsInt64(now)
      modifies this, cache.Values
      ensures Valid() && cache == old(cache)
      ensures View() == Next(validity, old(View()), Add(k, p, now))
    {
      ghost var s := View();
      RefreshCached(k, p, now);
      WriteEntry(k, p, now);
      assert Cached() == AddRecord(s, k, p, now).cache;
    }

    /** Write the record, and tell a collection in progress to skip it. */
    method WriteEntry(k: ContentKey, p: PeerId, now: int)
      modifies this`dstore, this`gcSkip, this`clock
      ensures dstore == old(dstore)[Clean(MkProvKeyFor(k, p)) := WriteTime(now)]
      ensures gcSkip == if gcQueryRes.Some? then old(gcSkip) + {MkProvKeyFor(k, p)} else old(gcSkip)
      ensures clock == now
    {
      dstore := dstore[Clean(MkProvKeyFor(k, p)) := WriteTime(now)];
      if gcQueryRes.Some? {
        gcSkip := gcSkip + {MkProvKeyFor(k, p)};
      }
      clock := now;
    }

    /** Update the provider set of a content key if it is cached. */
    method RefreshCached(k: ContentKey, p: PeerId, now: int)
      requires Valid()
      modifies cache.Values
      ensures Valid()
      ensures Cached() == if k in cache then old(Cached())[k := old(Cached())[k][p := now]] else old(Cached())
    {
      if k in cache {
        cache[k].SetVal(p, now);
      }
    }

    /** Load a provider set and delete the records that are unreadable or expired. The query's
        results come in any order. */
    method LoadProviderSet(k: ContentKey, now: int) returns (pset: ProviderSet)
      requires Valid()
      modifies this`dstore
      ensures fresh(pset) && pset.Valid()
      ensures IsLoad(validity, old(dstore), k, now, pset.times)
      ensures dstore == Load(validity, old(dstore), k, now)
    {
      ghost var d := dstore;
      pset := new ProviderSet();
      var todo := set name | name in dstore && IsChild(name, Clean(MkProvKey(k)));
      assert LoadedSoFar(validity, d, k, now, todo) == d;
      while todo != {}
        invariant fresh(pset) && pset.Valid()
        invariant forall name | name in todo :: Found(d, k, name) && name in dstore && dstore[name] == d[name]
        invariant LoadSoFar(validity, d, k, now, todo, pset.times)
        invariant dstore == LoadedSoFar(validity, d, k, now, todo)
        modifies this`dstore, pset
        decreases todo
      {
        var name :| name in todo;
        var value := dstore[name];
        var provider := ProviderOf(name);
        if Expired(validity, value, now) || provider == None {
          DropStep(validity, d, k, now, todo, name, pset.times);
          dstore := dstore - {name};
        } else {
          var time := ReadTimeValue(value).value;
          LoadStep(validity, d, k, now, todo, name, pset.times, provider.value, time);
          pset.SetVal(provider.value, time);
        }
        todo := todo - {name};
      }
    }

    method GetProvidersForKey(k: ContentKey, now: int) returns (providers: seq<PeerId>, ghost loaded: map<PeerId, int>)
      requires Valid() && clock <= now
      modifies this
      ensures Valid()
      ensures Enabled(validity, old(View()), Get(k, now, loaded))
      ensures View() == Next(validity, old(View()), Get(k, now, loaded))
      ensures NoDuplicates(providers) && Elements(providers) == Returned(old(View()), Get(k, now, loaded))
      ensures fresh(cache.Values - old(cache.Values))
    {
      ghost var s := View();
      clock := now;
      if k in cache {
        loaded := map[];
        providers := cache[k].providers;
        assert View() == s.(clock := now);
      } else {
        assert Cached() == s.cache;
        providers, loaded := LoadAndRemember(k, now);
        assert View() == Next(validity, s, Get(k, now, loaded));
      }
    }

    method LoadAndRemember(k: ContentKey, now: int) returns (providers: seq<PeerId>, ghost loaded: map<PeerId, int>)
      requires Valid() && k !in cache
      modifies this`dstore, this`cache
      ensures Valid()
      ensures IsLoad(validity, old(dstore), k, now, loaded)
      ensures dstore == Load(validity, old(dstore), k, now)
      ensures Cached() == if loaded == map[] then old(Cached()) else old(Cached())[k := loaded]
      ensures NoDuplicates(providers) && Elements(providers) == loaded.Keys
      ensures fresh(cache.Values - old(cache.Values))
    {
      ghost var before := Cached();
      var pset := LoadProviderSet(k, now);
      loaded := pset.times;
      providers := pset.providers;
      assert Cached() == before;
      Remember(k, pset);
    }

    /** Cache a loaded provider set unless it is empty. */
    method Remember(k: ContentKey, pset: ProviderSet)
      requires Valid() && pset.Valid() && k !in cache && pset !in cache.Values
      modifies this`cache
      ensures Valid()
      ensures Cached() == if pset.times == map[] then old(Cached()) else old(Cached())[k := pset.times]
      ensures cache.Values <= old(cache.Values) + {pset}
    {
      assert |pset.providers| > 0 <==> pset.times != map[] by {
        assert |pset.providers| > 0 ==> pset.providers[0] in Elements(pset.providers);
        assert |pset.providers| == 0 ==> Elements(pset.providers) == {};
      }
      if |pset.providers| > 0 {
        cache := cache[k := pset];
      }
    }

    /** The cache drops an entry of its choice. */
    method EvictKey(k: ContentKey)
      requires Valid()
      modifies this`cache
      ensures Valid() && View() == Next(validity, old(View()), Evict(k))
      ensures cache.Values <= old(cache.Values)
    {
      assert forall k' | k' in cache - {k} :: (cache - {k})[k'] in cache.Values;
      cache := cache - {k};
      assert View().cache == Next(validity, old(View()), Evict(k)).cache;
    }

    /** The timer fires: purge the cache and query all provider records. */
    method StartGc(t: int, now: int)
      requires Valid() && clock <= now && t <= now && gcQueryRes == None
      modifies this
      ensures Valid() && View() == Next(validity, old(View()), GcStart(t, now)) && cache == map[]
      ensures dstore == old(dstore) && gcQueryRes.Some? && gcSkip == {}
      ensures forall name :: name in gcQueryRes.value <==> name in dstore && PREFIX <= name
      ensures forall name | name in gcQueryRes.value :: gcQueryRes.value[name] == dstore[name]
    {
      gcTime := t;
      cache := map[];
      gcQueryRes := Some(map name | name in dstore && PREFIX <= name :: dstore[name]);
      gcSkip := {};
      clock, purged := now, now;
    }

    /** Look at one result of the query. */
    method HandleGcResult(name: string)
      requires Valid() && gcQueryRes.Some? && name in gcQueryRes.value
      modifies this
      ensures Valid() && View() == Next(validity, old(View()), GcResult(name)) && cache == old(cache)
      ensures name in dstore <==>
              && name in old(dstore)
              && (name in old(gcSkip) || ReadsAsFresh(validity, old(gcQueryRes).value[name], old(gcTime)))
      ensures dstore - {name} == old(dstore) - {name}
    {
      var value := gcQueryRes.value[name];
      gcQueryRes := Some(gcQueryRes.value - {name});
      if name in gcSkip {
        return;
      }
      if Expired(validity, value, gcTime) {
        dstore := dstore - {name};
      }
    }

    method EndGc()
      requires Valid() && gcQueryRes.Some?
      modifies this
      ensures Valid() && View() == Next(validity, old(View()), GcEnd) && cache == old(cache)
    {
      gcQueryRes := None;
      gcSkip := {};
    }

    // ---------- The event loop ----------

    /** What happened so far is a run of the state machine that leads to the present state. */
    ghost predicate Follows(states: seq<Store>, events: seq<Event>)
      reads this, cache.Values
    {
      IsRun(validity, states, events) && states[|events|] == View()
    }

    /** Handle a request. The clock stands at now. */
    method Handle(request: Request, now: int) returns (reply: seq<PeerId>, ghost e: Event)
      requires Valid() && clock <= now && IsInt64(now)
      modifies this, cache.Values
      ensures Valid() && fresh(cache.Values - old(cache.Values))
      ensures clock == now
      ensures Step(validity, old(View()), e, View()) && Serves(request, now, e, old(View()), reply)
    {
      match request
      case AddProvider(k, p) =>
        e := Add(k, p, now);
        AddProv(k, p, now);
        reply := [];
      case GetProviders(k) =>
        ghost var loaded;
        reply, loaded := GetProvidersForKey(k, now);
        e := Get(k, now, loaded);
    }

    /** Something else that the loop may do meanwhile: the cache drops an entry, or a collection starts,
        looks at a result, or ends. */
    method Housekeep(now: int) returns (ghost e: Option<Event>)
      requires Valid() && clock <= now
      modifies this
      ensures Valid() && cache.Values <= old(cache.Values)
      ensures clock <= now
      ensures match e
              case None => View() == old(View())
              case Some(e') => Step(validity, old(View()), e', View())
    {
      var evict: bool := *;
      if evict && cache != map[] {
        assert cache.Keys != {};
        var k :| k in cache;
        e := Some(Evict(k));
        EvictKey(k);
      } else if gcQueryRes == None {
        var fired: bool := *;
        if fired {
          var t :| t <= now;
          e := Some(GcStart(t, now));
          StartGc(t, now);
        } else {
          e := None;
        }
      } else if gcQueryRes.value.Keys != {} {
        var name :| name in gcQueryRes.value;
        e := Some(GcResult(name));
        HandleGcResult(name);
      } else {
        e := Some(GcEnd);
        EndGc();
      }
    }

    /** Any housekeeping that happens before the next request. */
    method Meanwhile(now: int, ghost states: seq<Store>, ghost events: seq<Event>)
      returns (ghost states': seq<Store>, ghost events': seq<Event>)
      requires Valid() && clock <= now && Follows(states, events)
      modifies this
      ensures Valid() && clock <= now && cache.Values <= old(cache.Values)
      ensures Follows(states', events') && states <= states' && events <= events'
    {
      states', events' := states, events;
      var turns :| turns >= 0;
      for i := 0 to turns
        invariant Valid() && clock <= now && cache.Values <= old(cache.Values)
        invariant Follows(states', events') && states <= states' && events <= events'
      {
        ghost var e := Housekeep(now);
        if e.Some? {
          ExtendRun(validity, states', events', e.value, View());
          states', events' := states' + [View()], events' + [e.value];
        }
      }
    }

    /** The event loop: serve requests one after the other, at the given times, with any housekeeping in
        between. What happens is a run of the state machine, and every provider added is in each reply
        for its content key within the validity. */
    method Serve(requests: seq<Request>, times: seq<int>)
      returns (replies: seq<seq<PeerId>>, ghost states: seq<Store>, ghost events: seq<Event>, ghost at: seq<nat>)
      requires Valid() && View() == Start(dstore, clock)
      requires Timed(requests, times) && (times != [] ==> clock <= times[0])
      modifies this, cache.Values
      ensures Valid() && Follows(states, events)
      ensures Served(validity, requests, times, replies, states, events, at)
      ensures |replies| == |requests|
      ensures forall i, j, k, p | 0 <= i < j < |requests| && Proper(k, p) && times[j] <= times[i] + validity
                && requests[i] == AddProvider(k, p) && requests[j] == GetProviders(k) :: p in replies[j]
    {
      replies, states, events, at := [], [View()], [], [];
      for i := 0 to |requests|
        invariant Valid() && fresh(cache.Values - old(cache.Values))
        invariant i < |times| ==> clock <= times[i]
        invariant Follows(states, events)
        invariant Served(validity, requests[..i], times[..i], replies, states, events, at)
      {
        assert requests[..i + 1] == requests[..i] + [requests[i]] && times[..i + 1] == times[..i] + [times[i]];
        replies, states, events, at :=
          ServeOne(requests[..i], times[..i], requests[i], times[i], replies, states, events, at);
      }
      assert requests[..|requests|] == requests && times[..|requests|] == times;
      ServedIsLive(validity, requests, times, replies, states, events, at);
    }

    method ServeOne(
        ghost requests: seq<Request>, ghost times: seq<int>, request: Request, now: int,
        replies: seq<seq<PeerId>>, ghost states: seq<Store>, ghost events: seq<Event>, ghost at: seq<nat>)
      returns (replies': seq<seq<PeerId>>, ghost states': seq<Store>, ghost events': seq<Event>, ghost at': seq<nat>)
      requires Valid() && clock <= now && IsInt64(now) && Follows(states, events)
      requires Served(validity, requests, times, replies, states, events, at)
      modifies this, cache.Values
      ensures Valid() && fresh(cache.Values - old(cache.Values)) && clock == now && Follows(states', events')
      ensures Served(validity, requests + [request], times + [now], replies', states', events', at')
    {
      states', events' := Meanwhile(now, states, events);
      ghost var s := View();
      var reply;
      ghost var e;
      reply, e := Handle(request, now);
      ExtendRun(validity, states', events', e, View());
      replies' := replies + [reply];
      at' := at + [|events'|];
      ServedMore(validity, requests, times, replies, states, events, at, request, now, reply,
                 states', events', e, View());
      states', events' := states' + [View()], events' + [e];
    }
  }

  datatype Request = AddProvider(k: ContentKey, p: PeerId) | GetProviders(k: ContentKey)

  /** Requests come at times that do not go backwards. */
  ghost predicate Timed(requests: seq<Request>, times: seq<int>) {
    && |times| == |requests|
    && (forall i | 0 <= i < |times| :: IsInt64(times[i]))
    && forall i, j | 0 <= i <= j < |times| :: times[i] <= times[j]
  }

  /** An event serves a request, and the reply holds each of its providers once. */
  ghost predicate Serves(request: Request, now: int, e: Event, s: Store, reply: seq<PeerId>) {
    match request
    case AddProvider(k, p) => e == Add(k, p, now)
    case GetProviders(k) =>
      e.Get? && e.k == k && e.now == now && NoDuplicates(reply) && Elements(reply) == Returned(s, e)
  }

  /** The i-th request was served by the event at position at[i]. */
  ghost predicate Served(
      validity: nat, requests: seq<Request>, times: seq<int>, replies: seq<seq<PeerId>>,
      states: seq<Store>, events: seq<Event>, at: seq<nat>)
  {
    && |requests| == |times| == |replies| == |at| && |states| == |events| + 1
    && (forall i | 0 <= i < |at| :: at[i] < |events|)
    && (forall i, j | 0 <= i < j < |at| :: at[i] < at[j])
    && forall i | 0 <= i < |at| :: Serves(requests[i], times[i], events[at[i]], states[at[i]], replies[i])
  }

  lemma ServedMore(
      validity: nat, requests: seq<Request>, times: seq<int>, replies: seq<seq<PeerId>>,
      states: seq<Store>, events: seq<Event>, at: seq<nat>, request: Request, now: int, reply: seq<PeerId>,
      states': seq<Store>, events': seq<Event>, e: Event, t: Store)
    requires Served(validity, requests, times, replies, states, events, at)
    requires states <= states' && events <= events' && |states'| == |events'| + 1
    requires Serves(request, now, e, states'[|events'|], reply)
    ensures Served(validity, requests + [request], times + [now], replies + [reply],
                   states' + [t], events' + [e], at + [|events'|])
  {
    var events2, states2 := events' + [e], states' + [t];
    assert forall i | 0 <= i < |events| :: events2[i] == events[i] && states2[i] == states[i];
  }

  lemma ServedIsLive(
      validity: nat, requests: seq<Request>, times: seq<int>, replies: seq<seq<PeerId>>,
      states: seq<Store>, events: seq<Event>, at: seq<nat>)
    requires IsRun(validity, states, events) && Served(validity, requests, times, replies, states, events, at)
    ensures forall i, j, k, p | 0 <= i < j < |requests| && Proper(k, p) && times[j] <= times[i] + validity
              && requests[i] == AddProvider(k, p) && requests[j] == GetProviders(k) :: p in replies[j]
  {
    forall i, j, k, p | 0 <= i < j < |requests| && Proper(k, p) && times[j] <= times[i] + validity
                        && requests[i] == AddProvider(k, p) && requests[j] == GetProviders(k)
      ensures p in replies[j]
    {
      assert Serves(requests[i], times[i], events[at[i]], states[at[i]], replies[i]);
      assert Serves(requests[j], times[j], events[at[j]], states[at[j]], replies[j]);
      NoLiveProviderLost(validity, states, events, at[i], at[j], k, p);
    }
  }
}
