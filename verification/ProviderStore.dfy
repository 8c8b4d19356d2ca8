/** The provider store as a state machine: an LRU cache of provider sets over a datastore, and
    a garbage collection that works through a snapshot of the datastore while adds, reads and
    evictions go on. */
module ProviderStore {
  import opened Base
  import opened ProviderCodec

  type Names = map<string, seq<byte>>

  /** The results of the collection's query not looked at yet, and the records to skip. */
  datatype Gc = Gc(pending: Names, skip: set<string>)

  /** clock is the time of the latest event; purged that of the latest purge, or of the start. */
  datatype Store = Store(
    cache: map<ContentKey, map<PeerId, int>>,
    dstore: Names,
    gc: Option<Gc>,
    gcTime: int,
    clock: int,
    purged: int)

  function Start(dstore: Names, clock: int): Store {
    Store(map[], dstore, None, clock, clock, clock)
  }

  /** A value that cannot be read, or that tells a time more than the validity before now. */
  predicate Expired(validity: nat, value: seq<byte>, now: int) {
    match ReadTimeValue(value)
    case Some(t) => now - t > validity
    case None => true
  }

  /** The records that a load of a content key finds. */
  predicate Found(d: Names, k: ContentKey, name: string) {
    name in d && IsChild(name, Clean(MkProvKey(k)))
  }

  /** Those of them that the load deletes. */
  predicate Dropped(validity: nat, d: Names, k: ContentKey, now: int, name: string) {
    Found(d, k, name) && (Expired(validity, d[name], now) || ProviderOf(name) == None)
  }

  predicate Kept(validity: nat, d: Names, k: ContentKey, now: int, name: string) {
    Found(d, k, name) && !Dropped(validity, d, k, now, name)
  }

  /** A load yields the providers of the kept records, each with the time of one of them. */
  ghost predicate IsLoad(validity: nat, d: Names, k: ContentKey, now: int, loaded: map<PeerId, int>) {
    && (forall name | Kept(validity, d, k, now, name) :: ProviderOf(name).value in loaded)
    && (forall p | p in loaded ::
          exists name | Kept(validity, d, k, now, name) ::
            ProviderOf(name) == Some(p) && ReadTimeValue(d[name]) == Some(loaded[p]))
  }

  function Load(validity: nat, d: Names, k: ContentKey, now: int): Names {
    map name | name in d && !Dropped(validity, d, k, now, name) :: d[name]
  }

  datatype Event =
    | Add(k: ContentKey, p: PeerId, now: int)
    | Get(k: ContentKey, now: int, loaded: map<PeerId, int>)
    | Evict(k: ContentKey)
    | GcStart(t: int, now: int)
    | GcResult(name: string)
    | GcEnd

  ghost predicate Enabled(validity: nat, s: Store, e: Event) {
    match e
    case Add(k, p, now) => s.clock <= now && IsInt64(now)
    case Get(k, now, loaded) => s.clock <= now && (k in s.cache || IsLoad(validity, s.dstore, k, now, loaded))
    case Evict(_) => true
    case GcStart(t, now) => s.clock <= now && t <= now && s.gc == None
    case GcResult(name) => s.gc.Some? && name in s.gc.value.pending
    case GcEnd => s.gc.Some?
  }

  /** The providers a get returns. */
  function Returned(s: Store, e: Event): set<PeerId>
    requires e.Get?
  {
    if e.k in s.cache then s.cache[e.k].Keys else e.loaded.Keys
  }

  function AddRecord(s: Store, k: ContentKey, p: PeerId, now: int): Store {
    Store(
      if k in s.cache then s.cache[k := s.cache[k][p := now]] else s.cache,
      s.dstore[Clean(MkProvKeyFor(k, p)) := WriteTime(now)],
      match s.gc { case Some(g) => Some(g.(skip := g.skip + {MkProvKeyFor(k, p)})) case None => None },
      s.gcTime, now, s.purged)
  }

  function Collect(validity: nat, s: Store, name: string): Store
    requires s.gc.Some? && name in s.gc.value.pending
  {
    var g := s.gc.value;
    var t := s.(gc := Some(g.(pending := g.pending - {name})));
    if name !in g.skip && Expired(validity, g.pending[name], s.gcTime) then t.(dstore := t.dstore - {name}) else t
  }

  function Next(validity: nat, s: Store, e: Event): Store
    requires e.GcResult? ==> s.gc.Some? && e.name in s.gc.value.pending
  {
    match e
    case Add(k, p, now) => AddRecord(s, k, p, now)
    case Get(k, now, loaded) =>
      if k in s.cache then s.(clock := now)
      else
        s.(dstore := Load(validity, s.dstore, k, now),
           cache := if loaded == map[] then s.cache else s.cache[k := loaded],
           clock := now)
    case Evict(k) => s.(cache := s.cache - {k})
    case GcStart(t, now) =>
      s.(cache := map[],
         gc := Some(Gc(map name | name in s.dstore && PREFIX <= name :: s.dstore[name], {})),
         gcTime := t, clock := now, purged := now)
    case GcResult(name) => Collect(validity, s, name)
    case GcEnd => s.(gc := None)
  }

  ghost predicate Step(validity: nat, s: Store, e: Event, t: Store) {
    Enabled(validity, s, e) && t == Next(validity, s, e)
  }

  /** A run, from any datastore and with any events. */
  ghost predicate IsRun(validity: nat, states: seq<Store>, events: seq<Event>) {
    && |states| == |events| + 1
    && states[0] == Start(states[0].dstore, states[0].clock)
    && forall i | 0 <= i < |events| :: Step(validity, states[i], events[i], states[i + 1])
  }

  lemma ExtendRun(validity: nat, states: seq<Store>, events: seq<Event>, e: Event, t: Store)
    requires IsRun(validity, states, events) && Step(validity, states[|events|], e, t)
    ensures IsRun(validity, states + [t], events + [e])
  {
    var states', events' := states + [t], events + [e];
    forall i | 0 <= i < |events'|
      ensures Step(validity, states'[i], events'[i], states'[i + 1])
    {
      if i < |events| {
        assert Step(validity, states[i], events[i], states[i + 1]);
      }
    }
  }

  // ---------- Names ----------

  predicate Proper(k: ContentKey, p: PeerId) {
    k != [] && p.raw != []
  }

  lemma CleanParent(k: ContentKey)
    requires k != []
    ensures Clean(MkProvKey(k)) == MkProvKey(k)
  {
    EncodeHasNoSlash(k);
    var a, n, s := Encode(k), |PREFIX|, MkProvKey(k);
    CollapseShrinks(s);
    assert forall i :: !DoubleSlashAt(s, i) by {
      forall i
        ensures !DoubleSlashAt(s, i)
      {
        SlashPositions(a, "", i);
        assert forall j | 0 <= j < |s| :: s[j] == (PREFIX + a + "/" + "")[j];
      }
    }
    assert s[|s| - 1] == a[|a| - 1];
  }

  /** A load of k finds a record exactly if it is one of k's. */
  lemma FoundIsOwn(d: Names, k: ContentKey, p: PeerId, k': ContentKey)
    requires k != [] && MkProvKeyFor(k', p) in d
    ensures Found(d, k, MkProvKeyFor(k', p)) <==> k == k'
  {
    CleanParent(k);
    ChildrenAreOwn(k, k', p);
  }

  lemma {:induction false} CollapseAfterPrefix(b: string)
    requires NoSlash(b)
    ensures Collapse(PREFIX + "/" + b) == PREFIX + b
  {
    var s := PREFIX + "/" + b;
    var n := |s| - 1;
    if b == "" {
      CollapseShrinks(PREFIX);
      assert s[..n] == PREFIX && s[n] == '/' && s[n - 1] == '/';
      assert forall i :: !DoubleSlashAt(PREFIX, i);
    } else {
      CollapseAfterPrefix(b[..|b| - 1]);
      assert s[..n] == PREFIX + "/" + b[..|b| - 1];
    }
  }

  /** A name without the slash that separates content key and provider is no record's. */
  lemma FlatName(x: string, k: ContentKey)
    requires NoSlash(x)
    ensures !IsChild(PREFIX + x, MkProvKey(k))
  {
    var s, n := PREFIX + x, |PREFIX|;
    assert forall i | n <= i < |s| :: s[i] == x[i - n];
    assert MkProvKey(k) + "/" == PREFIX + (Encode(k) + "/");
    LastIsPart(MkProvKey(k) + "/", s);
  }

  lemma LastIsPart(a: string, s: string)
    requires a != ""
    ensures a <= s ==> |s| >= |a| && s[|a| - 1] == a[|a| - 1]
  {
  }

  /** The name under which the datastore keeps a record with an empty part. */
  lemma ImproperName(k: ContentKey, p: PeerId)
    requires !Proper(k, p)
    ensures var name := Clean(MkProvKeyFor(k, p));
            name == if k != [] then MkProvKey(k) else if p.raw != [] then PREFIX + Encode(p.raw) else "/providers"
  {
    var a, b, s := Encode(k), Encode(p.raw), MkProvKeyFor(k, p);
    EncodeHasNoSlash(k);
    EncodeHasNoSlash(p.raw);
    if k == [] {
      assert s == PREFIX + "/" + b;
      CollapseAfterPrefix(b);
      if p.raw != [] {
        assert (PREFIX + b)[|PREFIX + b| - 1] == b[|b| - 1];
      } else {
        assert PREFIX + b == PREFIX && PREFIX[..|PREFIX| - 1] == "/providers";
      }
    } else {
      assert s == PREFIX + a + "/" + "";
      CollapseShrinks(s);
      forall i
        ensures !DoubleSlashAt(s, i)
      {
        SlashPositions(a, "", i);
      }
      assert s[..|s| - 1] == MkProvKey(k);
    }
  }

  /** Such a name is below that of no nonempty content key, so no load of one finds it. */
  lemma ImproperIsNoChild(k: ContentKey, p: PeerId, k': ContentKey)
    requires !Proper(k, p)
    ensures !IsChild(Clean(MkProvKeyFor(k, p)), MkProvKey(k'))
  {
    ImproperName(k, p);
    EncodeHasNoSlash(k);
    EncodeHasNoSlash(p.raw);
    if k != [] {
      FlatName(Encode(k), k');
    } else if p.raw != [] {
      FlatName(Encode(p.raw), k');
    }
  }

  lemma OwnChild(k: ContentKey, p: PeerId)
    ensures IsChild(MkProvKeyFor(k, p), MkProvKey(k))
  {
  }

  /** Adding a record touches another proper one only if it is the same. */
  lemma AddedName(k: ContentKey, p: PeerId, k': ContentKey, p': PeerId)
    requires Proper(k', p')
    ensures Clean(MkProvKeyFor(k, p)) == MkProvKeyFor(k', p') <==> k == k' && p == p'
  {
    if Proper(k, p) {
      CleanKeepsName(k, p);
      if MkProvKeyFor(k, p) == MkProvKeyFor(k', p') {
        MkProvKeyForInjective(k, p, k', p');
      }
    } else {
      ImproperIsNoChild(k, p, k');
      OwnChild(k', p');
    }
  }

  // ---------- Live providers, whatever else happens ----------

  /** A collection may act on a record's result only if that is what the datastore holds, if any. */
  ghost predicate SoundFor(s: Store, name: string) {
    s.gc.Some? ==>
      && s.gcTime <= s.purged
      && (name in s.gc.value.pending && name !in s.gc.value.skip && name in s.dstore ==>
            s.dstore[name] == s.gc.value.pending[name])
  }

  /** A stored record of a cached content key is cached. */
  ghost predicate CachedFor(s: Store, k: ContentKey, p: PeerId) {
    k in s.cache && MkProvKeyFor(k, p) in s.dstore ==> p in s.cache[k]
  }

  ghost predicate LiveInv(s: Store, k: ContentKey, p: PeerId) {
    SoundFor(s, MkProvKeyFor(k, p)) && CachedFor(s, k, p) && s.purged <= s.clock
  }

  lemma AddKeepsLive(s: Store, k': ContentKey, p': PeerId, now: int, k: ContentKey, p: PeerId)
    requires Proper(k, p) && LiveInv(s, k, p) && s.clock <= now
    ensures LiveInv(AddRecord(s, k', p', now), k, p)
  {
    AddedName(k', p', k, p);
  }

  lemma GetKeepsLive(validity: nat, s: Store, e: Event, k: ContentKey, p: PeerId)
    requires Proper(k, p) && LiveInv(s, k, p) && e.Get? && Enabled(validity, s, e)
    ensures LiveInv(Next(validity, s, e), k, p)
  {
    if e.k == k && k !in s.cache && MkProvKeyFor(k, p) in Next(validity, s, e).dstore {
      FoundIsOwn(s.dstore, k, p, k);
      ProviderRoundTrip(k, p);
      assert Kept(validity, s.dstore, k, e.now, MkProvKeyFor(k, p));
    }
  }

  lemma NextKeepsLive(validity: nat, s: Store, e: Event, k: ContentKey, p: PeerId)
    requires Proper(k, p) && LiveInv(s, k, p) && Enabled(validity, s, e)
    ensures LiveInv(Next(validity, s, e), k, p)
  {
    match e
    case Add(k', p', now) => AddKeepsLive(s, k', p', now, k, p);
    case Get(_, _, _) => GetKeepsLive(validity, s, e, k, p);
    case _ =>
  }

  lemma {:induction false} RunKeepsLive(
      validity: nat, states: seq<Store>, events: seq<Event>, i: nat, k: ContentKey, p: PeerId)
    requires Proper(k, p) && IsRun(validity, states, events) && i < |states|
    ensures LiveInv(states[i], k, p)
  {
    if i > 0 {
      RunKeepsLive(validity, states, events, i - 1, k, p);
      assert Step(validity, states[i - 1], events[i - 1], states[i]);
      NextKeepsLive(validity, states[i - 1], events[i - 1], k, p);
    }
  }

  /** The record of (k, p) tells a time no earlier than t. */
  ghost predicate Recorded(d: Names, k: ContentKey, p: PeerId, t: int) {
    && MkProvKeyFor(k, p) in d
    && ReadTimeValue(d[MkProvKeyFor(k, p)]).Some?
    && ReadTimeValue(d[MkProvKeyFor(k, p)]).value >= t
  }

  lemma AddRecords(validity: nat, s: Store, k: ContentKey, p: PeerId, now: int)
    requires Proper(k, p) && Enabled(validity, s, Add(k, p, now))
    ensures Recorded(AddRecord(s, k, p, now).dstore, k, p, now)
  {
    CleanKeepsName(k, p);
    TimeRoundTrip(now);
  }

  lemma AddKeepsRecord(s: Store, k': ContentKey, p': PeerId, now: int, k: ContentKey, p: PeerId, t: int)
    requires Proper(k, p) && Recorded(s.dstore, k, p, t) && t <= s.clock <= now && IsInt64(now)
    ensures Recorded(AddRecord(s, k', p', now).dstore, k, p, t)
  {
    AddedName(k', p', k, p);
    TimeRoundTrip(now);
  }

  lemma LoadKeepsRecord(validity: nat, d: Names, k': ContentKey, now: int, k: ContentKey, p: PeerId, t: int)
    requires Recorded(d, k, p, t) && now <= t + validity
    ensures Recorded(Load(validity, d, k', now), k, p, t)
  {
    ProviderRoundTrip(k, p);
  }

  lemma CollectKeepsRecord(validity: nat, s: Store, name: string, k: ContentKey, p: PeerId, t: int)
    requires LiveInv(s, k, p) && s.gc.Some? && name in s.gc.value.pending
    requires Recorded(s.dstore, k, p, t) && s.clock <= t + validity
    ensures Recorded(Collect(validity, s, name).dstore, k, p, t)
  {
  }

  /** Since a time t, the record of (k, p) is there as long as the validity lasts. */
  ghost predicate RecordedSince(validity: nat, s: Store, k: ContentKey, p: PeerId, t: int) {
    t <= s.clock && (s.clock <= t + validity ==> Recorded(s.dstore, k, p, t))
  }

  lemma NextKeepsRecord(validity: nat, s: Store, e: Event, u: Store, k: ContentKey, p: PeerId, t: int)
    requires Proper(k, p) && LiveInv(s, k, p) && Step(validity, s, e, u)
    requires RecordedSince(validity, s, k, p, t)
    ensures RecordedSince(validity, u, k, p, t)
  {
    if u.clock <= t + validity {
      match e
      case Add(k', p', now) => AddKeepsRecord(s, k', p', now, k, p, t);
      case Get(k', now, _) => LoadKeepsRecord(validity, s.dstore, k', now, k, p, t);
      case GcResult(name) => CollectKeepsRecord(validity, s, name, k, p, t);
      case _ =>
    }
  }

  lemma {:induction false} RecordSurvives(
      validity: nat, states: seq<Store>, events: seq<Event>, i: nat, j: nat, k: ContentKey, p: PeerId, t: int)
    requires Proper(k, p) && IsRun(validity, states, events) && i <= j < |states|
    requires RecordedSince(validity, states[i], k, p, t)
    ensures RecordedSince(validity, states[j], k, p, t)
    decreases j
  {
    if i < j {
      RecordSurvives(validity, states, events, i, j - 1, k, p, t);
      RunKeepsLive(validity, states, events, j - 1, k, p);
      assert Step(validity, states[j - 1], events[j - 1], states[j]);
      NextKeepsRecord(validity, states[j - 1], events[j - 1], states[j], k, p, t);
    }
  }

  lemma GetReturnsRecorded(validity: nat, s: Store, e: Event, p: PeerId, t: int)
    requires e.Get? && Proper(e.k, p) && LiveInv(s, e.k, p) && Enabled(validity, s, e)
    requires Recorded(s.dstore, e.k, p, t) && e.now <= t + validity
    ensures p in Returned(s, e)
  {
    if e.k !in s.cache {
      ProviderRoundTrip(e.k, p);
      FoundIsOwn(s.dstore, e.k, p, e.k);
      assert Kept(validity, s.dstore, e.k, e.now, MkProvKeyFor(e.k, p));
    }
  }

  /** The i-th event adds a provider, and the j-th is a get of its content key within the validity. */
  ghost predicate AddThenGet(validity: nat, events: seq<Event>, i: nat, j: nat, k: ContentKey, p: PeerId) {
    && i < j < |events|
    && events[i].Add? && events[i].k == k && events[i].p == p
    && events[j].Get? && events[j].k == k && events[j].now <= events[i].now + validity
  }

  /** No live provider is lost: a get handled within the validity of an earlier add returns the
      provider added, from whatever datastore the run started and whatever happens besides. */
  lemma NoLiveProviderLost(
      validity: nat, states: seq<Store>, events: seq<Event>, i: nat, j: nat, k: ContentKey, p: PeerId)
    requires Proper(k, p) && IsRun(validity, states, events) && AddThenGet(validity, events, i, j, k, p)
    ensures p in Returned(states[j], events[j])
  {
    var t := events[i].now;
    assert Step(validity, states[i], events[i], states[i + 1]);
    assert Step(validity, states[j], events[j], states[j + 1]);
    AddRecords(validity, states[i], k, p, t);
    RecordSurvives(validity, states, events, i + 1, j, k, p, t);
    RunKeepsLive(validity, states, events, j, k, p);
    GetReturnsRecorded(validity, states[j], events[j], p, t);
  }

  ghost predicate LosesProvider(
      validity: nat, states: seq<Store>, events: seq<Event>, i: nat, j: nat, k: ContentKey, p: PeerId)
  {
    && IsRun(validity, states, events) && AddThenGet(validity, events, i, j, k, p)
    && p !in Returned(states[j], events[j])
  }

  /** The guarantee holds in all runs exactly if neither the content key nor the peer ID is empty. */
  lemma LiveProvidersKeptIff(validity: nat, k: ContentKey, p: PeerId)
    ensures (forall states, events, i, j :: !LosesProvider(validity, states, events, i, j, k, p)) <==> Proper(k, p)
  {
    if Proper(k, p) {
      forall states, events, i, j
        ensures !LosesProvider(validity, states, events, i, j, k, p)
      {
        if IsRun(validity, states, events) && AddThenGet(validity, events, i, j, k, p) {
          NoLiveProviderLost(validity, states, events, i, j, k, p);
        }
      }
    } else if p.raw == [] {
      var states, events := EmptyPeerIsLost(validity, k, p);
    } else {
      var states, events := EmptyKeyIsLost(validity, p);
    }
  }

  /** The record of an empty peer ID is kept where no get finds it. */
  lemma EmptyPeerIsLost(validity: nat, k: ContentKey, p: PeerId) returns (states: seq<Store>, events: seq<Event>)
    requires p.raw == []
    ensures LosesProvider(validity, states, events, 0, 1, k, p)
  {
    var s0 := Start(map[], 0);
    var s1 := Next(validity, s0, Add(k, p, 0));
    var name := Clean(MkProvKeyFor(k, p));
    assert s1.dstore == map[name := WriteTime(0)] && s1.cache == map[];
    assert !Found(s1.dstore, k, name) by {
      ImproperName(k, p);
      if k != [] {
        ImproperIsNoChild(k, p, k);
        CleanParent(k);
      } else {
        EmptyParent();
      }
    }
    var e := Get(k, 0, map[]);
    assert IsLoad(validity, s1.dstore, k, 0, map[]);
    states, events := [s0, s1, Next(validity, s1, e)], [Add(k, p, 0), e];
    assert Step(validity, states[0], events[0], states[1]);
    assert Step(validity, states[1], events[1], states[2]);
  }

  lemma EmptyParent()
    ensures Clean(MkProvKey([])) == "/providers"
  {
    CollapseShrinks(PREFIX);
    assert MkProvKey([]) == PREFIX;
    assert forall i :: !DoubleSlashAt(PREFIX, i);
    assert PREFIX[..|PREFIX| - 1] == "/providers";
  }

  lemma EmptyKeySnapshot(validity: nat, p: PeerId)
    requires p.raw != []
    ensures var name := Clean(MkProvKeyFor([], p));
            Next(validity, Start(map[name := []], 0), GcStart(0, 0)) ==
              Store(map[], map[name := []], Some(Gc(map[name := []], {})), 0, 0, 0)
  {
    var name := Clean(MkProvKeyFor([], p));
    ImproperName([], p);
    var d: Names := map[name := []];
    assert (map n | n in d && PREFIX <= n :: d[n]) == d;
  }

  lemma EmptyKeyDeleted(validity: nat, p: PeerId)
    requires p.raw != []
    ensures var name, skip := Clean(MkProvKeyFor([], p)), {MkProvKeyFor([], p)};
            var s := Store(map[], map[name := WriteTime(0)], Some(Gc(map[name := []], skip)), 0, 0, 0);
            Collect(validity, s, name) == Store(map[], map[], Some(Gc(map[], skip)), 0, 0, 0)
  {
    CleanKeepsName([], p);
  }

  /** The collection does not recognise the name of a record of the empty content key as one to skip,
      so it deletes the record that replaced an unreadable one. */
  lemma EmptyKeyIsLost(validity: nat, p: PeerId) returns (states: seq<Store>, events: seq<Event>)
    requires p.raw != []
    ensures LosesProvider(validity, states, events, 1, 3, [], p)
  {
    var name := Clean(MkProvKeyFor([], p));
    var s0 := Start(map[name := []], 0);
    var s1 := s0.(gc := Some(Gc(map[name := []], {})));
    var s2 := s1.(dstore := map[name := WriteTime(0)], gc := Some(Gc(map[name := []], {MkProvKeyFor([], p)})));
    var s3 := s2.(dstore := map[], gc := Some(Gc(map[], {MkProvKeyFor([], p)})));
    states, events := [s0], [];
    EmptyKeySnapshot(validity, p);
    ExtendRun(validity, states, events, GcStart(0, 0), s1);
    states, events := states + [s1], events + [GcStart(0, 0)];
    assert s1.dstore[name := WriteTime(0)] == s2.dstore && s1.gc.value.skip + {MkProvKeyFor([], p)} == s2.gc.value.skip;
    ExtendRun(validity, states, events, Add([], p, 0), s2);
    states, events := states + [s2], events + [Add([], p, 0)];
    EmptyKeyDeleted(validity, p);
    ExtendRun(validity, states, events, GcResult(name), s3);
    states, events := states + [s3], events + [GcResult(name)];
    ExtendRun(validity, states, events, Get([], 0, map[]), s3);
    states, events := states + [s3], events + [Get([], 0, map[])];
  }

  /** The same happens to a record that was merely stale when the collection began. */
  lemma EmptyKeyIsCollected(validity: nat, p: PeerId, before: int, now: int)
    requires p.raw != [] && IsInt64(before) && IsInt64(now) && now - before > validity
    ensures var name := Clean(MkProvKeyFor([], p));
            var s0 := Start(map[name := WriteTime(before)], now);
            var s1 := Next(validity, s0, GcStart(now, now));
            var s2 := Next(validity, s1, Add([], p, now));
            && Enabled(validity, s0, GcStart(now, now)) && Enabled(validity, s1, Add([], p, now))
            && Enabled(validity, s2, GcResult(name))
            && Next(validity, s2, GcResult(name)).dstore == map[]
  {
    var name := Clean(MkProvKeyFor([], p));
    ImproperName([], p);
    CleanKeepsName([], p);
    TimeRoundTrip(before);
    var s0 := Start(map[name := WriteTime(before)], now);
    var s1 := Next(validity, s0, GcStart(now, now));
    assert s1.gc.value.pending == map[name := WriteTime(before)];
  }

  // ---------- Coherence of cache and datastore ----------

  /** What the datastore holds below the name of a nonempty content key are records of it. */
  ghost predicate WellNamed(d: Names) {
    forall name, k: ContentKey | name in d && k != [] && IsChild(name, MkProvKey(k)) :: Named(name, k)
  }

  ghost predicate Named(name: string, k: ContentKey) {
    exists p: PeerId | p.raw != [] :: name == MkProvKeyFor(k, p)
  }

  /** A cached provider set holds exactly the records of its content key, with their times. */
  ghost predicate Agrees(d: Names, k: ContentKey, providers: map<PeerId, int>) {
    forall p: PeerId | p.raw != [] :: Agree(d, k, providers, p)
  }

  ghost predicate Agree(d: Names, k: ContentKey, providers: map<PeerId, int>, p: PeerId) {
    && (p in providers <==> MkProvKeyFor(k, p) in d)
    && (p in providers ==> ReadTimeValue(d[MkProvKeyFor(k, p)]) == Some(providers[p]))
  }

  ghost predicate Coherent(s: Store) {
    forall k | k in s.cache && k != [] :: Agrees(s.dstore, k, s.cache[k])
  }

  /** No cached provider had expired at the latest purge. */
  ghost predicate Fresh(validity: nat, s: Store) {
    && s.purged <= s.clock
    && forall k, p | k in s.cache && p in s.cache[k] :: s.purged - s.cache[k][p] <= validity
  }

  ghost predicate SnapshotSound(s: Store) {
    forall k, p | Proper(k, p) :: SoundFor(s, MkProvKeyFor(k, p))
  }

  ghost predicate Inv(validity: nat, s: Store) {
    WellNamed(s.dstore) && Coherent(s) && Fresh(validity, s) && SnapshotSound(s)
  }

  /** What is found by a load of k is named after k and a provider. */
  lemma FoundName(d: Names, k: ContentKey, name: string) returns (p: PeerId)
    requires WellNamed(d) && k != [] && Found(d, k, name)
    ensures name == MkProvKeyFor(k, p) && p.raw != [] && ProviderOf(name) == Some(p)
  {
    CleanParent(k);
    assert Named(name, k);
    p :| p.raw != [] && name == MkProvKeyFor(k, p);
    ProviderRoundTrip(k, p);
  }

  lemma AddWellNamed(d: Names, k: ContentKey, p: PeerId, value: seq<byte>)
    requires WellNamed(d)
    ensures WellNamed(d[Clean(MkProvKeyFor(k, p)) := value])
  {
    var added := Clean(MkProvKeyFor(k, p));
    forall k': ContentKey | k' != [] && IsChild(added, MkProvKey(k'))
      ensures Named(added, k')
    {
      if Proper(k, p) {
        CleanKeepsName(k, p);
        ChildrenAreOwn(k', k, p);
      } else {
        ImproperIsNoChild(k, p, k');
      }
    }
  }

  lemma AddAgrees(d: Names, k: ContentKey, p: PeerId, now: int, k': ContentKey, providers: map<PeerId, int>)
    requires IsInt64(now) && k' != [] && Agrees(d, k', providers)
    ensures Agrees(d[Clean(MkProvKeyFor(k, p)) := WriteTime(now)], k',
                   if k == k' then providers[p := now] else providers)
  {
    TimeRoundTrip(now);
    forall q: PeerId | q.raw != []
      ensures Agree(d[Clean(MkProvKeyFor(k, p)) := WriteTime(now)], k',
                    if k == k' then providers[p := now] else providers, q)
    {
      assert Agree(d, k', providers, q);
      AddedName(k, p, k', q);
    }
  }

  lemma AddKeeps(validity: nat, s: Store, k: ContentKey, p: PeerId, now: int)
    requires Inv(validity, s) && Enabled(validity, s, Add(k, p, now))
    ensures Inv(validity, AddRecord(s, k, p, now))
  {
    var t := AddRecord(s, k, p, now);
    AddWellNamed(s.dstore, k, p, WriteTime(now));
    assert Coherent(t) by {
      forall k' | k' in t.cache && k' != []
        ensures Agrees(t.dstore, k', t.cache[k'])
      {
        AddAgrees(s.dstore, k, p, now, k', s.cache[k']);
      }
    }
    forall k', p' | Proper(k', p')
      ensures SoundFor(t, MkProvKeyFor(k', p'))
    {
      assert SoundFor(s, MkProvKeyFor(k', p'));
      AddedName(k, p, k', p');
    }
  }

  lemma LoadKeepsOthers(validity: nat, d: Names, k: ContentKey, now: int, k': ContentKey, providers: map<PeerId, int>)
    requires k != [] && k != k' && Agrees(d, k', providers)
    ensures Agrees(Load(validity, d, k, now), k', providers)
  {
    forall q: PeerId | q.raw != []
      ensures Agree(Load(validity, d, k, now), k', providers, q)
    {
      assert Agree(d, k', providers, q);
      if MkProvKeyFor(k', q) in d {
        FoundIsOwn(d, k, q, k');
      }
    }
  }

  lemma LoadAgrees(validity: nat, d: Names, k: ContentKey, now: int, loaded: map<PeerId, int>)
    requires k != [] && WellNamed(d) && IsLoad(validity, d, k, now, loaded)
    ensures Agrees(Load(validity, d, k, now), k, loaded)
  {
    forall q: PeerId | q.raw != []
      ensures Agree(Load(validity, d, k, now), k, loaded, q)
    {
      var name := MkProvKeyFor(k, q);
      ProviderRoundTrip(k, q);
      if name in d {
        FoundIsOwn(d, k, q, k);
        if !Dropped(validity, d, k, now, name) {
          assert Kept(validity, d, k, now, name);
        }
      }
      if q in loaded {
        var n :| Kept(validity, d, k, now, n) && ProviderOf(n) == Some(q) && ReadTimeValue(d[n]) == Some(loaded[q]);
        var q' := FoundName(d, k, n);
      }
    }
  }

  lemma GetKeepsCoherent(validity: nat, s: Store, e: Event)
    requires WellNamed(s.dstore) && Coherent(s) && e.Get? && Enabled(validity, s, e) && e.k != []
    ensures Coherent(Next(validity, s, e))
  {
    var t := Next(validity, s, e);
    if e.k !in s.cache {
      LoadAgrees(validity, s.dstore, e.k, e.now, e.loaded);
      forall k' | k' in t.cache && k' != []
        ensures Agrees(t.dstore, k', t.cache[k'])
      {
        if k' != e.k {
          LoadKeepsOthers(validity, s.dstore, e.k, e.now, k', s.cache[k']);
        }
      }
    }
  }

  /** Freshness survives every event. */
  lemma NextKeepsFresh(validity: nat, s: Store, e: Event)
    requires Fresh(validity, s) && Enabled(validity, s, e)
    ensures Fresh(validity, Next(validity, s, e))
  {
  }

  lemma GetKeeps(validity: nat, s: Store, e: Event)
    requires Inv(validity, s) && e.Get? && Enabled(validity, s, e)
    ensures WellNamed(Next(validity, s, e).dstore) && Fresh(validity, Next(validity, s, e))
    ensures SnapshotSound(Next(validity, s, e))
  {
    NextKeepsFresh(validity, s, e);
    forall k, p | Proper(k, p)
      ensures SoundFor(Next(validity, s, e), MkProvKeyFor(k, p))
    {
      assert SoundFor(s, MkProvKeyFor(k, p));
    }
  }

  /** The collection never deletes a record of a cached content key. */
  lemma CollectSparesCached(validity: nat, s: Store, k: ContentKey, p: PeerId)
    requires Inv(validity, s) && Proper(k, p) && k in s.cache && p in s.cache[k]
    requires s.gc.Some? && MkProvKeyFor(k, p) in s.gc.value.pending
    ensures MkProvKeyFor(k, p) in Collect(validity, s, MkProvKeyFor(k, p)).dstore
  {
    assert Agree(s.dstore, k, s.cache[k], p);
    assert SoundFor(s, MkProvKeyFor(k, p));
  }

  lemma CollectKeeps(validity: nat, s: Store, name: string)
    requires Inv(validity, s) && Enabled(validity, s, GcResult(name))
    ensures Inv(validity, Collect(validity, s, name))
  {
    var t := Collect(validity, s, name);
    forall k | k in t.cache && k != []
      ensures Agrees(t.dstore, k, t.cache[k])
    {
      forall p: PeerId | p.raw != []
        ensures Agree(t.dstore, k, t.cache[k], p)
      {
        assert Agree(s.dstore, k, s.cache[k], p);
        if name == MkProvKeyFor(k, p) && p in s.cache[k] {
          CollectSparesCached(validity, s, k, p);
        }
      }
    }
    forall k, p | Proper(k, p)
      ensures SoundFor(t, MkProvKeyFor(k, p))
    {
      assert SoundFor(s, MkProvKeyFor(k, p));
    }
  }

  /** No provider of a nonempty content key that is cached has expired. */
  ghost predicate NoneExpired(validity: nat, s: Store, now: int) {
    forall k, p | Proper(k, p) && k in s.cache && p in s.cache[k] :: now - s.cache[k][p] <= validity
  }

  /** A get of the empty content key looks at the records of all content keys and deletes the expired
      ones. It leaves cache and datastore coherent exactly if none of those is cached. */
  lemma EmptyGetKeepsCoherentIff(validity: nat, s: Store, now: int, loaded: map<PeerId, int>)
    requires Inv(validity, s) && [] !in s.cache && Enabled(validity, s, Get([], now, loaded))
    ensures Coherent(Next(validity, s, Get([], now, loaded))) <==> NoneExpired(validity, s, now)
  {
    var t := Next(validity, s, Get([], now, loaded));
    forall k, p | Proper(k, p) && k in s.cache
      ensures Agree(t.dstore, k, t.cache[k], p) <==> (p in s.cache[k] ==> now - s.cache[k][p] <= validity)
    {
      assert Agree(s.dstore, k, s.cache[k], p);
      if p in s.cache[k] {
        EmptyGetDrops(validity, s.dstore, now, k, p);
      }
    }
    if Coherent(t) {
      forall k, p | Proper(k, p) && k in s.cache && p in s.cache[k]
        ensures now - s.cache[k][p] <= validity
      {
        assert k in t.cache;
        assert Agree(t.dstore, k, t.cache[k], p);
      }
    }
  }

  lemma EmptyGetDrops(validity: nat, d: Names, now: int, k: ContentKey, p: PeerId)
    requires Proper(k, p) && MkProvKeyFor(k, p) in d
    ensures MkProvKeyFor(k, p) in Load(validity, d, [], now) <==> !Expired(validity, d[MkProvKeyFor(k, p)], now)
  {
    ProviderRoundTrip(k, p);
    FoundByEmpty(d, k, p);
  }

  lemma FoundByEmpty(d: Names, k: ContentKey, p: PeerId)
    requires MkProvKeyFor(k, p) in d
    ensures Found(d, [], MkProvKeyFor(k, p))
  {
    EmptyParent();
    assert "/providers" + "/" == PREFIX;
    assert PREFIX <= MkProvKeyFor(k, p);
  }

  /** A get of the empty content key does harm if it looks at the datastore while a cached provider has expired. */
  ghost predicate Harmless(validity: nat, s: Store, e: Event) {
    e.Get? && e.k == [] && [] !in s.cache ==> NoneExpired(validity, s, e.now)
  }

  lemma GetKeepsCoherentIff(validity: nat, s: Store, e: Event)
    requires Inv(validity, s) && e.Get? && Enabled(validity, s, e)
    ensures Coherent(Next(validity, s, e)) <==> Harmless(validity, s, e)
  {
    if e.k != [] {
      GetKeepsCoherent(validity, s, e);
    } else if [] !in s.cache {
      EmptyGetKeepsCoherentIff(validity, s, e.now, e.loaded);
    }
  }

  /** An event keeps the invariant exactly if it is harmless, and a harmful one breaks coherence. */
  lemma NextKeepsInv(validity: nat, s: Store, e: Event)
    requires Inv(validity, s) && Enabled(validity, s, e)
    ensures Inv(validity, Next(validity, s, e)) <==> Harmless(validity, s, e)
    ensures Coherent(Next(validity, s, e)) <==> Harmless(validity, s, e)
  {
    match e
    case Add(k, p, now) => AddKeeps(validity, s, k, p, now);
    case Get(_, _, _) =>
      GetKeeps(validity, s, e);
      GetKeepsCoherentIff(validity, s, e);
    case GcResult(name) => CollectKeeps(validity, s, name);
    case _ =>
  }

  ghost predicate AllHarmless(validity: nat, states: seq<Store>, events: seq<Event>, n: nat)
    requires n <= |events| <= |states|
  {
    forall i | 0 <= i < n :: Harmless(validity, states[i], events[i])
  }

  /** As long as all events were harmless, every cached provider set agrees with the datastore, no cached
      provider had expired at the latest purge, and the collection's snapshot is sound. */
  lemma {:induction false} RunKeepsInv(validity: nat, states: seq<Store>, events: seq<Event>, i: nat)
    requires IsRun(validity, states, events) && i < |states|
    requires WellNamed(states[0].dstore) && AllHarmless(validity, states, events, i)
    ensures Inv(validity, states[i])
  {
    if i > 0 {
      RunKeepsInv(validity, states, events, i - 1);
      assert Step(validity, states[i - 1], events[i - 1], states[i]);
      NextKeepsInv(validity, states[i - 1], events[i - 1]);
      assert Harmless(validity, states[i - 1], events[i - 1]);
    }
  }

  lemma {:induction false} CoherentIsHarmless(validity: nat, states: seq<Store>, events: seq<Event>, i: nat)
    requires IsRun(validity, states, events) && i < |states|
    requires WellNamed(states[0].dstore) && forall j | 0 <= j <= i :: Coherent(states[j])
    ensures AllHarmless(validity, states, events, i)
  {
    if i > 0 {
      CoherentIsHarmless(validity, states, events, i - 1);
      RunKeepsInv(validity, states, events, i - 1);
      assert Step(validity, states[i - 1], events[i - 1], states[i]);
      NextKeepsInv(validity, states[i - 1], events[i - 1]);
    }
  }

  /** Cache and datastore agree throughout a run exactly if all its events are harmless. */
  lemma CoherentIff(validity: nat, states: seq<Store>, events: seq<Event>)
    requires IsRun(validity, states, events) && WellNamed(states[0].dstore)
    ensures (forall i | 0 <= i < |states| :: Coherent(states[i])) <==> AllHarmless(validity, states, events, |events|)
  {
    if AllHarmless(validity, states, events, |events|) {
      forall i | 0 <= i < |states|
        ensures Coherent(states[i])
      {
        RunKeepsInv(validity, states, events, i);
      }
    }
    if forall i | 0 <= i < |states| :: Coherent(states[i]) {
      CoherentIsHarmless(validity, states, events, |events|);
    }
  }

  /** The one record of a provider, added at time 0. */
  function Sole(k: ContentKey, p: PeerId): Names {
    map[MkProvKeyFor(k, p) := WriteTime(0)]
  }

  lemma SoleAdded(validity: nat, states: seq<Store>, events: seq<Event>, k: ContentKey, p: PeerId)
    returns (states': seq<Store>, events': seq<Event>)
    requires Proper(k, p) && IsRun(validity, states, events) && states[|events|] == Start(map[], 0)
    ensures IsRun(validity, states', events') && events' == events + [Add(k, p, 0)]
    ensures states' == states + [Store(map[], Sole(k, p), None, 0, 0, 0)]
  {
    CleanKeepsName(k, p);
    ExtendRun(validity, states, events, Add(k, p, 0), Store(map[], Sole(k, p), None, 0, 0, 0));
    states', events' := states + [Store(map[], Sole(k, p), None, 0, 0, 0)], events + [Add(k, p, 0)];
  }

  lemma SoleLoad(validity: nat, k: ContentKey, p: PeerId)
    requires Proper(k, p)
    ensures IsLoad(validity, Sole(k, p), k, 0, map[p := 0]) && Load(validity, Sole(k, p), k, 0) == Sole(k, p)
  {
    TimeRoundTrip(0);
    ProviderRoundTrip(k, p);
    FoundIsOwn(Sole(k, p), k, p, k);
    assert Kept(validity, Sole(k, p), k, 0, MkProvKeyFor(k, p));
  }

  lemma SoleLoaded(validity: nat, states: seq<Store>, events: seq<Event>, k: ContentKey, p: PeerId)
    returns (states': seq<Store>, events': seq<Event>)
    requires Proper(k, p) && IsRun(validity, states, events)
    requires states[|events|] == Store(map[], Sole(k, p), None, 0, 0, 0)
    ensures IsRun(validity, states', events') && events' == events + [Get(k, 0, map[p := 0])]
    ensures states' == states + [Store(map[k := map[p := 0]], Sole(k, p), None, 0, 0, 0)]
  {
    SoleLoad(validity, k, p);
    assert p in map[p := 0];
    var t := Store(map[k := map[p := 0]], Sole(k, p), None, 0, 0, 0);
    ExtendRun(validity, states, events, Get(k, 0, map[p := 0]), t);
    states', events' := states + [t], events + [Get(k, 0, map[p := 0])];
  }

  lemma SoleExpires(validity: nat, k: ContentKey, p: PeerId)
    requires Proper(k, p)
    ensures IsLoad(validity, Sole(k, p), [], validity + 1, map[])
    ensures Load(validity, Sole(k, p), [], validity + 1) == map[]
  {
    TimeRoundTrip(0);
    EmptyGetDrops(validity, Sole(k, p), validity + 1, k, p);
  }

  lemma SoleDropped(validity: nat, states: seq<Store>, events: seq<Event>, k: ContentKey, p: PeerId)
    returns (states': seq<Store>, events': seq<Event>)
    requires Proper(k, p) && IsRun(validity, states, events)
    requires states[|events|] == Store(map[k := map[p := 0]], Sole(k, p), None, 0, 0, 0)
    ensures IsRun(validity, states', events') && events' == events + [Get([], validity + 1, map[])]
    ensures states' == states + [Store(map[k := map[p := 0]], map[], None, 0, validity + 1, 0)]
  {
    SoleExpires(validity, k, p);
    var t := Store(map[k := map[p := 0]], map[], None, 0, validity + 1, 0);
    ExtendRun(validity, states, events, Get([], validity + 1, map[]), t);
    states', events' := states + [t], events + [Get([], validity + 1, map[])];
  }

  /** After such a get the cache still answers with a provider whose record is gone: a run for every nonempty
      content key and peer ID. */
  lemma EmptyGetUncouples(validity: nat, k: ContentKey, p: PeerId) returns (states: seq<Store>, events: seq<Event>)
    requires Proper(k, p)
    ensures events == [Add(k, p, 0), Get(k, 0, map[p := 0]), Get([], validity + 1, map[])]
    ensures IsRun(validity, states, events) && states[0] == Start(map[], 0)
    ensures k in states[3].cache && p in states[3].cache[k] && MkProvKeyFor(k, p) !in states[3].dstore
    ensures !Coherent(states[3])
  {
    states, events := [Start(map[], 0)], [];
    states, events := SoleAdded(validity, states, events, k, p);
    states, events := SoleLoaded(validity, states, events, k, p);
    states, events := SoleDropped(validity, states, events, k, p);
    assert !Agree(states[3].dstore, k, states[3].cache[k], p);
  }

  lemma {:induction false} RunIsFresh(validity: nat, states: seq<Store>, events: seq<Event>, i: nat)
    requires IsRun(validity, states, events) && i < |states|
    ensures Fresh(validity, states[i])
  {
    if i > 0 {
      RunIsFresh(validity, states, events, i - 1);
      assert Step(validity, states[i - 1], events[i - 1], states[i]);
      NextKeepsFresh(validity, states[i - 1], events[i - 1]);
    }
  }

  /** The time of a provider that a get returns. */
  function TimeOf(s: Store, e: Event, p: PeerId): int
    requires e.Get? && p in Returned(s, e)
  {
    if e.k in s.cache then s.cache[e.k][p] else e.loaded[p]
  }

  /** A get returns only providers that had not expired at the latest purge or at the start; and if all events
      before it were harmless, the time that says so is that of a record. */
  lemma NoDeadProviderReturned(validity: nat, states: seq<Store>, events: seq<Event>, j: nat, p: PeerId)
    requires IsRun(validity, states, events) && j < |events| && events[j].Get?
    requires p in Returned(states[j], events[j])
    ensures states[j].purged - TimeOf(states[j], events[j], p) <= validity
    ensures WellNamed(states[0].dstore) && AllHarmless(validity, states, events, j) && Proper(events[j].k, p) ==>
              && MkProvKeyFor(events[j].k, p) in states[j].dstore
              && ReadTimeValue(states[j].dstore[MkProvKeyFor(events[j].k, p)]) == Some(TimeOf(states[j], events[j], p))
  {
    var s, e := states[j], events[j];
    assert Step(validity, s, e, states[j + 1]);
    RunIsFresh(validity, states, events, j);
    if WellNamed(states[0].dstore) && AllHarmless(validity, states, events, j) && Proper(events[j].k, p) {
      RunKeepsInv(validity, states, events, j);
      ReturnedIsRecorded(validity, s, e, p);
    }
  }

  lemma ReturnedIsRecorded(validity: nat, s: Store, e: Event, p: PeerId)
    requires WellNamed(s.dstore) && Coherent(s) && e.Get? && Enabled(validity, s, e) && Proper(e.k, p)
    requires p in Returned(s, e)
    ensures MkProvKeyFor(e.k, p) in s.dstore
    ensures ReadTimeValue(s.dstore[MkProvKeyFor(e.k, p)]) == Some(TimeOf(s, e, p))
  {
    if e.k in s.cache {
      assert Agree(s.dstore, e.k, s.cache[e.k], p);
    } else {
      var n :| Kept(validity, s.dstore, e.k, e.now, n) && ProviderOf(n) == Some(p)
               && ReadTimeValue(s.dstore[n]) == Some(e.loaded[p]);
      var p' := FoundName(s.dstore, e.k, n);
    }
  }

  // ---------- What a load keeps and yields ----------

  /** A record that a load of the content key finds, and that reads as fresh and names a provider. */
  predicate GoodRecord(validity: nat, d: Names, k: ContentKey, now: int, name: string) {
    && name in d && IsChild(name, Clean(MkProvKey(k)))
    && ReadsAsFresh(validity, d[name], now) && ProviderOf(name).Some?
  }

  /** A load deletes exactly the records it finds that are not good, and yields exactly the providers of the
      good ones. */
  lemma LoadSelects(validity: nat, d: Names, k: ContentKey, now: int, loaded: map<PeerId, int>)
    requires IsLoad(validity, d, k, now, loaded)
    ensures forall name :: name in Load(validity, d, k, now) <==>
                           name in d && (IsChild(name, Clean(MkProvKey(k))) ==> GoodRecord(validity, d, k, now, name))
    ensures forall p :: p in loaded <==>
                        exists name | GoodRecord(validity, d, k, now, name) :: ProviderOf(name) == Some(p)
  {
    forall name
      ensures GoodRecord(validity, d, k, now, name) <==> Kept(validity, d, k, now, name)
    {
    }
  }

  // ---------- What a collection removes ----------

  /** A value that reads as a time at most the validity before now. */
  predicate ReadsAsFresh(validity: nat, value: seq<byte>, now: int) {
    ReadTimeValue(value).Some? && now - ReadTimeValue(value).value <= validity
  }

  /** The event does not write a record under the name. */
  predicate Spares(e: Event, name: string) {
    e.Add? ==> MkProvKeyFor(e.k, e.p) != name && Clean(MkProvKeyFor(e.k, e.p)) != name
  }

  /** A collection at time t would remove the record if it looked at it now. */
  ghost predicate Doomed(s: Store, name: string, value: seq<byte>, t: int) {
    s.gc.Some? ==>
      && s.gcTime == t && name !in s.gc.value.skip
      && (name in s.gc.value.pending ==> s.gc.value.pending[name] == value)
  }

  lemma StartDooms(validity: nat, s: Store, t: int, now: int, name: string)
    requires Enabled(validity, s, GcStart(t, now)) && name in s.dstore
    ensures Doomed(Next(validity, s, GcStart(t, now)), name, s.dstore[name], t)
  {
  }

  lemma StaysDoomed(validity: nat, s: Store, e: Event, name: string, value: seq<byte>, t: int)
    requires Doomed(s, name, value, t) && Enabled(validity, s, e) && Spares(e, name) && !e.GcStart?
    ensures Doomed(Next(validity, s, e), name, value, t)
  {
  }

  lemma {:induction false} DoomedUntil(
      validity: nat, states: seq<Store>, events: seq<Event>, i: nat, k: nat, name: string)
    requires IsRun(validity, states, events) && i < k < |states| && events[i].GcStart? && name in states[i].dstore
    requires forall m | i < m < k :: Spares(events[m], name) && !events[m].GcStart?
    ensures Doomed(states[k], name, states[i].dstore[name], events[i].t)
    decreases k
  {
    assert Step(validity, states[k - 1], events[k - 1], states[k]);
    if k == i + 1 {
      StartDooms(validity, states[i], events[i].t, events[i].now, name);
    } else {
      DoomedUntil(validity, states, events, i, k - 1, name);
      StaysDoomed(validity, states[k - 1], events[k - 1], name, states[i].dstore[name], events[i].t);
    }
  }

  lemma {:induction false} StaysGone(
      validity: nat, states: seq<Store>, events: seq<Event>, k: nat, j: nat, name: string)
    requires IsRun(validity, states, events) && k <= j < |states| && name !in states[k].dstore
    requires forall m | k <= m < j :: Spares(events[m], name)
    ensures name !in states[j].dstore
    decreases j
  {
    if k < j {
      StaysGone(validity, states, events, k, j - 1, name);
      assert Step(validity, states[j - 1], events[j - 1], states[j]);
    }
  }

  /** A record that had expired when a collection began, and that was not written since, is gone once the
      collection has looked at it. */
  lemma ExpiredIsCollected(
      validity: nat, states: seq<Store>, events: seq<Event>, i: nat, k: nat, j: nat, name: string)
    requires IsRun(validity, states, events) && i < k < j < |states|
    requires events[i].GcStart? && name in states[i].dstore
    requires !ReadsAsFresh(validity, states[i].dstore[name], events[i].t)
    requires events[k] == GcResult(name)
    requires forall m | i < m < j :: Spares(events[m], name) && (m < k ==> !events[m].GcStart?)
    ensures name !in states[j].dstore
  {
    DoomedUntil(validity, states, events, i, k, name);
    assert Step(validity, states[k], events[k], states[k + 1]);
    StaysGone(validity, states, events, k + 1, j, name);
  }

  /** For a nonempty content key and peer ID, only an add of both writes their record. */
  lemma SparesOthers(e: Event, k: ContentKey, p: PeerId)
    requires Proper(k, p)
    ensures Spares(e, MkProvKeyFor(k, p)) <==> !(e.Add? && e.k == k && e.p == p)
  {
    if e.Add? {
      AddedName(e.k, e.p, k, p);
      if MkProvKeyFor(e.k, e.p) == MkProvKeyFor(k, p) {
        MkProvKeyForInjective(e.k, e.p, k, p);
      }
    }
  }

  // ---------- Dead providers ----------

  /** The record of (k, p), if there is one, tells the time t. */
  ghost predicate DatedAt(d: Names, k: ContentKey, p: PeerId, t: int) {
    MkProvKeyFor(k, p) in d ==> ReadTimeValue(d[MkProvKeyFor(k, p)]) == Some(t)
  }

  lemma AddDates(validity: nat, s: Store, k: ContentKey, p: PeerId, now: int)
    requires Proper(k, p) && Enabled(validity, s, Add(k, p, now))
    ensures DatedAt(AddRecord(s, k, p, now).dstore, k, p, now)
  {
    CleanKeepsName(k, p);
    TimeRoundTrip(now);
  }

  lemma NextKeepsDate(validity: nat, s: Store, e: Event, k: ContentKey, p: PeerId, t: int)
    requires Proper(k, p) && DatedAt(s.dstore, k, p, t) && Enabled(validity, s, e)
    requires !(e.Add? && e.k == k && e.p == p)
    ensures DatedAt(Next(validity, s, e).dstore, k, p, t)
  {
    if e.Add? {
      AddedName(e.k, e.p, k, p);
    }
  }

  lemma {:induction false} DateStays(
      validity: nat, states: seq<Store>, events: seq<Event>, i: nat, j: nat, k: ContentKey, p: PeerId)
    requires Proper(k, p) && IsRun(validity, states, events) && i < j < |states| && events[i].Add?
    requires events[i].k == k && events[i].p == p
    requires forall m | i < m < j :: !(events[m].Add? && events[m].k == k && events[m].p == p)
    ensures DatedAt(states[j].dstore, k, p, events[i].now)
    decreases j
  {
    assert Step(validity, states[j - 1], events[j - 1], states[j]);
    if j == i + 1 {
      AddDates(validity, states[i], k, p, events[i].now);
    } else {
      DateStays(validity, states, events, i, j - 1, k, p);
      NextKeepsDate(validity, states[j - 1], events[j - 1], k, p, events[i].now);
    }
  }

  lemma {:induction false} RunWellNamed(validity: nat, states: seq<Store>, events: seq<Event>, i: nat)
    requires IsRun(validity, states, events) && i < |states| && WellNamed(states[0].dstore)
    ensures WellNamed(states[i].dstore)
  {
    if i > 0 {
      RunWellNamed(validity, states, events, i - 1);
      var s, e := states[i - 1], events[i - 1];
      assert Step(validity, s, e, states[i]);
      if e.Add? {
        AddWellNamed(s.dstore, e.k, e.p, WriteTime(e.now));
      }
    }
  }

  /** A get that reads the datastore later than the validity after the latest add of a provider does not return
      it. */
  lemma DeadProviderNotLoaded(
      validity: nat, states: seq<Store>, events: seq<Event>, i: nat, j: nat, k: ContentKey, p: PeerId)
    requires Proper(k, p) && IsRun(validity, states, events) && i < j < |events| && events[i].Add?
    requires events[i].k == k && events[i].p == p
    requires forall m | i < m < j :: !(events[m].Add? && events[m].k == k && events[m].p == p)
    requires events[j].Get? && events[j].k == k && k !in states[j].cache && events[j].now > events[i].now + validity
    requires WellNamed(states[0].dstore)
    ensures p !in Returned(states[j], events[j])
  {
    RunWellNamed(validity, states, events, j);
    DateStays(validity, states, events, i, j, k, p);
    var s, e := states[j], events[j];
    assert Step(validity, s, e, states[j + 1]);
    if p in e.loaded {
      var n :| Kept(validity, s.dstore, k, e.now, n) && ProviderOf(n) == Some(p)
               && ReadTimeValue(s.dstore[n]) == Some(e.loaded[p]);
      var q := FoundName(s.dstore, k, n);
    }
  }
}
