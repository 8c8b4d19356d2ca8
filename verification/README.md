# Models and proofs for a Kademlia DHT

This project models the concurrent protocols and the stateful indexes of the go-libp2p
implementation of the libp2p Kademlia DHT specification, and proves what they keep, what they
return and that they end. Each protocol is a state machine whose steps interleave freely; an
inductive invariant is proved for every run, and the theorems about whole runs follow from it.
Where the program changes state in place there is also a class with the program's loops, and its
methods are proved to take exactly the steps of the state machine.

| file | what it models |
|---|---|
| `Base`, `BitStrings`, `KeySpace` | peer IDs, bit strings, the 256-bit XOR key space |
| `PeerSet` | the order of peers around a target (module `PeerOrder`), and the lazily sorted peer set of a lookup |
| `Lookup`, `LookupResult`, `LookupQuery` | the iterative lookup: state machine, meaning of its result, the loop as written |
| `FollowUp`, `LookupWithFollowUp` | the follow-up queries: state machine and wait as written; a lookup with its follow-ups |
| `ProviderCodec`, `ProviderStore`, `ProviderManager` | provider records: names and times, the store as a state machine, the event loop as written (module `ProviderManagement`) |
| `OptimisticProvide`, `OptimisticRun` | the completion protocol of an optimistic provide, and its goroutines as written |
| `Crawler`, `CrawlRun` | the crawler: state machine, and the loop with its workers as written |
| `PutRecords`, `ValueSearch` | concurrent PUT_VALUE requests; choosing the best value of a search |
| `FullRTScan`, `ResponseFilter`, `DiversityFilter` | the three IP diversity mechanisms |
| `MeasurementWindow`, `Regression`, `NetSize` | the network size estimator |

## What the proofs found

These statements are proved as lemmas, each with the exact condition where there is one.

- The flag that a lookup's result is completed is documented to exclude premature ends (query.go:79-81).
  For every lookup that ended it is set exactly if the last update received ended it anyway, or if the
  caller's context was found ended before any update was received (`LookupResult.FlaggedIff`). The second
  case contradicts the documentation, and it occurs (`LookupResult.CancelledYetCompleted`). The result has
  no peers then, so query.go:112-114 returns the wrong flag as it is
  (`LookupWithFollowUp.WrongFlagIsReturned`). For the whole call, follow-ups included, the condition is that
  of `LookupWithFollowUp.RunLookupWithFollowup`; with somebody left to query, a lookup whose caller's context
  ended is never flagged.
- A provide whose lookup is over comes to its end exactly if it has sent a record
  (`OptimisticProvide.EndsIff`). With nothing sent it waits for a completion forever
  (`OptimisticProvide.NothingSentHangs`), and that occurs (`OptimisticProvide.NothingSentRun`).
- A crawl ends exactly if it has a worker or nothing to dial (`Crawler.EndsIff`), and it dials each peer
  once exactly when no starting peer is listed twice (`Crawler.DialedOnceIffNoDuplicateStart`).
- Whatever the datastore held and whatever else happens, every get within the validity of an add returns the
  provider added, exactly if neither the content key nor the peer ID is empty
  (`ProviderStore.LiveProvidersKeptIff`). The record of an empty content key is kept under a cleaned name,
  which the garbage collection does not recognise as one to skip (`ProviderStore.EmptyKeyIsLost`); that of
  an empty peer ID is kept where no get finds it (`ProviderStore.EmptyPeerIsLost`). A get of the empty
  content key works on the records of all keys. Cache and datastore agree throughout a run exactly if at
  each such get that reads the datastore no cached provider has expired (`ProviderStore.CoherentIff`); for
  every other key and peer there is a run in which they come apart (`ProviderStore.EmptyGetUncouples`). The
  message handlers refuse empty content keys (handlers.go:307, 344), so only a direct caller of the exported
  store can get there with one.
- In the diversity scan a peer counts against itself: the only peer of a table is left out if two of
  its addresses share a group and the limit is one (`FullRTScan.LonePeerLeftOut`). A peer left out keeps the
  places it took, so it can keep out the next one of its group (`FullRTScan.LeftOutTakesPlaces`). When a peer
  is admitted is `FullRTScan.AdmittedIff`, and which peers are chosen is `FullRTScan.GreedyChooses`.
- The routing table filter admits the first peer of a bucket whatever the limit per bucket is, so both
  limits hold in all runs exactly if that limit is positive or the table admits nobody
  (`DiversityFilter.LimitsHoldIff`).
- The network size has no finite slope exactly when in every window all distances are equal, and what is
  cached then is the platform's integer for a float that is not a number (`NetSize.EstimateIsProper`).
  Finding the same peers for the same key five times leads there (`NetSize.SamePeersGiveNoSlope`).

## What is assumed

- Hashing into the key space is free of collisions on a finite universe of peers. Alpha is at least
  one, the bucket size of the diversity scan too, and for convergence beta is at most the bucket size:
  the program checks none of these.
- One iteration of the lookup loop is one step: only that loop touches the peer set, and a worker can
  do nothing to it meanwhile but append to the channel. Seed peers, answers, failures, cancellation and
  what the stop function says are arbitrary.
- The clock does not go backwards, the collection's timer tells no time later than its handling, and
  times fit in 64 bits. Datastore operations succeed; a query finds
  the names below the cleaned prefix, and the results of a collection's query are those of a snapshot,
  in any order. The LRU cache may evict any entry at any time. For coherence, what the datastore holds at
  first below the name of a content key are records of it.
- Base32 is the encoding of section 6 of RFC 4648 without padding (section 3.2).
- A validator does not change its mind; of two values its selection fails, or yields one that is at least
  as good as the other in a total preorder and, where a handler or a search is modelled alone, the first of
  two equally good ones. A stored record lies under the name of its own key. A value received is not a nil slice.
- A peer dialed by the crawler may answer anything, and something else each time; a failure is an empty answer.
- Floating point numbers are real numbers, with a square root that is exact. Sizes do not overflow, and
  the limit of the diversity scan is not negative.

## Model

| member | source | states |
|---|---|---|
| KeySpace.DistanceInjective | qpeerset/qpeerset.go:79-81 | two keys at the same XOR distance from a target are equal |
| KeySpace.DistanceRange | netsize/netsize.go:63-69 | a distance is zero only to the target itself and never exceeds the all-ones key |
| KeySpace.PrefixEnds | netsize/netsize.go:234-236 | the common prefix length is the first index at which the keys differ, or their length |
| KeySpace.PrefixBoundsDistance | netsize/netsize.go:63-69 | keys that share exactly n leading bits are at a distance of at least 2^(255-n) and less than 2^(256-n) |
| KeySpace.SpaceForValid | qpeerset/qpeerset.go:79-81 | a collision-free hash gives all peers distinct distances, which is what the sort order relies on |
| PeerOrder.AscendingUnique | qpeerset/qpeerset.go:98-104 | there is only one ascending order of a set of peers, so any sorting algorithm gives the same result |
| PeerOrder.InClosestN | qpeerset/qpeerset.go:124-143 | a peer is among the n nearest in some states iff fewer than n peers in these states are strictly nearer |
| PeerOrder.ClosestNShape | qpeerset/qpeerset.go:124-143 | the n nearest are in ascending distance, distinct, in the given states, and n or all of them |
| PeerSet.SortEntriesSorts | qpeerset/qpeerset.go:47-58 | sorting orders the entries by distance and is a permutation |
| PeerSet.PermutationKeeps | qpeerset/qpeerset.go:98-104 | reordering entries keeps IDs unique and the set's contents as a map unchanged |
| PeerSet.FilteredAscends | qpeerset/qpeerset.go:134-138 | filtering a sorted slice by state lists exactly the matching peers in ascending distance |
| PeerSet.QueryPeerset.constructor | qpeerset/qpeerset.go:62-68 | a new set is valid and empty |
| PeerSet.QueryPeerset.KeysInUniverse | qpeerset/qpeerset.go:27-43 | the slice has one entry for each peer of the map it represents |
| PeerSet.QueryPeerset.Find | qpeerset/qpeerset.go:70-77 | the index of the peer's entry, or -1 exactly if there is none |
| PeerSet.QueryPeerset.TryAdd | qpeerset/qpeerset.go:83-96 | adds an unknown peer as heard, with its distance and referrer; leaves a known one as it is and says so |
| PeerSet.QueryPeerset.Sort | qpeerset/qpeerset.go:98-104 | the slice is sorted and the contents are unchanged |
| PeerSet.QueryPeerset.SetState | qpeerset/qpeerset.go:106-110 | changes the state of that peer and nothing else, and keeps the sorted flag true to the slice |
| PeerSet.QueryPeerset.GetState | qpeerset/qpeerset.go:112-116 | the state the map gives to a known peer |
| PeerSet.QueryPeerset.GetReferrer | qpeerset/qpeerset.go:118-122 | the referrer the map gives to a known peer |
| PeerSet.QueryPeerset.GetClosestNInStates | qpeerset/qpeerset.go:124-143 | exactly the n nearest peers in the given states, nearest first; contents unchanged |
| PeerSet.QueryPeerset.GetClosestInStates | qpeerset/qpeerset.go:145-149 | all peers in the given states, nearest first |
| PeerSet.QueryPeerset.NumHeard | qpeerset/qpeerset.go:151-154 | the number of heard peers |
| PeerSet.QueryPeerset.NumWaiting | qpeerset/qpeerset.go:156-159 | the number of waiting peers |
| Lookup.NextKeepsInv | query.go:275-319 | every step keeps: waiting peers match workers and unread reports, at most alpha wait, no panic, and someone is waited for until the end |
| Lookup.RunKeepsInv | query.go:275-319 | the invariant holds in every state of every run |
| Lookup.WorkerCorrespondence | query.go:472-521 | in every reachable state no panic has happened, waiting peers are in bijection with workers and unread reports, at most alpha wait, and every worker can send without blocking, also after the loop has ended |
| Lookup.NeverWaitsForNothing | query.go:289-297 | until the loop ends a worker is running or an update is unread, so the select never waits for nothing |
| Lookup.LookupIsBounded | query.go:289-318 | a run receives at most one update per peer of the universe and one more, and at most one report per peer is sent |
| Lookup.PeersMoveForward | query.go:493-520 | over any run no peer leaves the set and each only moves from heard to waiting to queried or unreachable |
| Lookup.RoomToSend | query.go:282-289 | workers and unread updates together never exceed the channel's capacity |
| Lookup.AbsorbUpdates | query.go:493-520 | an update makes a failed peer unreachable and an answering one queried, adds the peers heard of as heard, and changes nothing else |
| Lookup.StatesTellReports | query.go:409-520 | over a run: a peer is known iff a received update named it, unreachable iff its failure was received, queried iff its answer was |
| Lookup.SeedsAreKnown | query.go:284-294 | once the first update was received all seeds are known |
| Lookup.IterationUsesBudget | query.go:299-317 | after an iteration that goes on alpha peers wait or nobody is heard, and each peer that started to wait is nearer than each still heard |
| LookupResult.CompletedMeansBetaNearestQueried | query.go:237-243 | starvation implies the beta condition, and the completed flag holds iff every reachable peer with fewer than beta nearer reachable peers has been queried |
| LookupResult.UndisturbedCompletes | query.go:351-379 | a lookup that is neither stopped nor cancelled ends only by completing |
| LookupResult.FlaggedIff | query.go:237-312 | for every run that ended: the flag is set iff the last update ended the lookup anyway, or the loop saw the caller's context ended before any update; in that case the peer set is empty |
| LookupResult.EndsExactly | query.go:289-312 | an iteration that receives an update ends the loop iff the stop function asks for that or the update does so anyway; one that sees the context ended always does |
| LookupResult.CancelledYetCompleted | query.go:295-312 | a run of the second kind, whose result is wrongly flagged |
| LookupResult.LookupConverges | query.go:275-379 | if nothing disturbs the lookup and every peer answers helpfully, the first min(beta, known) peers of its result are that many nearest peers of the whole network |
| LookupResult.NearerAreKnown | query.go:493-498 | a helpful answer of the i-th nearest known peer, i below the bucket size, leaves no nearer peer of the network unknown |
| LookupQuery.Query.UpdateState | query.go:472-521 | peer by peer: the failed one becomes unreachable, the answering one queried, new ones heard with the cause as referrer, nothing else changes; the query times are noted for exactly the queried peers |
| LookupQuery.Query.IsLookupTermination | query.go:369-379 | true iff the beta nearest reachable peers have all been queried |
| LookupQuery.Query.IsStarvationTermination | query.go:381-383 | true iff no peer is heard or waiting |
| LookupQuery.Query.IsReadyToTerminate | query.go:351-367 | ready iff stopped, starved or beta-terminated; otherwise the nearest heard peers within the budget |
| LookupQuery.Query.SpawnQuery | query.go:322-349 | the peer is waiting and has a worker |
| LookupQuery.Query.Terminate | query.go:385-405 | the flag is set once and the path context cancelled |
| LookupQuery.Query.Conclude | query.go:299-317 | the second half of an iteration takes the state machine's step, and if it goes on it uses the budget, nearest peers first |
| LookupQuery.Query.Select | query.go:291-297 | receives an update or gives up on a cancelled context, each a step of the state machine, without panic |
| LookupQuery.Query.Meanwhile | query.go:409-470 | workers and cancellation interleave as they like; every send finds room; the next select is not blocked |
| LookupQuery.Query.Run | query.go:275-319 | for any answers of the stop function the loop ends, whatever the workers and the context do, after all workers have reported; what it did is a run of the state machine in which each iteration got the next answer |
| LookupQuery.Query.ConstructLookupResult | query.go:237-264 | the K nearest reachable peers with their states, the K nearest of all, and the completed flag |
| FollowUp.PendingMeaning | query.go:101-110 | the follow-ups go to exactly the peers of the result that are heard or waiting |
| FollowUp.NobodyLeftBehind | query.go:122-158 | in every interleaving each follow-up can send its completion without blocking, and when the wait has returned none runs and every completion was received |
| FollowUp.NeverStuck | query.go:133-158 | until the wait has returned, a follow-up can complete or a completion can be received |
| FollowUp.WorkShrinks | query.go:133-158 | every step leaves less work, so the wait returns |
| FollowUp.FlagIff | query.go:136-152 | the flag stays set iff it was and neither the context nor the stop function cut the follow-ups short before the last completion |
| FollowUp.FollowUps.Wait | query.go:122-160 | for any answers of the stop function both loops return, whatever the follow-ups and the context do; no follow-up is left; the flag is as above |
| LookupWithFollowUp.RunLookupWithFollowup | query.go:91-161 | for any answers of the stop function the whole call returns; no worker and no follow-up is left; the result's peers come nearest first, none unreachable; it is flagged iff the step that ended the lookup would have done so without the stop function, or saw the context ended before any update, and nobody was pending or the follow-ups ran undisturbed; they are called off only by the caller's context or the stop function, and always if the context had ended |
| LookupWithFollowUp.WrongFlagIsReturned | query.go:101-114 | after a cancellation before any update there is nobody to follow up with, so the wrong flag is returned |
| ProviderCodec.DecodeEncode | records/providers_manager.go:290-296 | base32 decoding inverts encoding, for all byte strings |
| ProviderCodec.EncodeSymbols | records/providers_manager.go:290-296 | the i-th symbol is the one that the table of RFC 4648 gives for the i-th five bits, the last group filled up with zeros |
| ProviderCodec.ProviderRoundTrip | records/providers_manager.go:385-397 | decoding the text after the last slash of a record's name gives the provider back |
| ProviderCodec.ChildrenAreOwn | records/providers_manager.go:350-351 | a query below a content key's name finds a record iff it is one of that key |
| ProviderCodec.MkProvKeyForInjective | records/providers_manager.go:290-296 | different content keys or providers have different record names |
| ProviderCodec.CleanKeepsName | records/providers_manager.go:281-288 | the datastore keeps a record under the name given iff neither content key nor peer ID is empty |
| ProviderCodec.TimeRoundTrip | records/providers_manager.go:284-287 | every 64-bit time is read back from its zigzag varint, which takes at most ten of the buffer's sixteen bytes |
| ProviderCodec.TimeBytes | records/providers_manager.go:284-287 | the bytes of a time: its zigzag number in groups of seven bits, least significant first, all but the last marked |
| ProviderCodec.UvarintReadsIff | records/providers_manager.go:405-412 | a time can be read iff its bytes end within ten and fit in 64 bits |
| ProviderStore.RunKeepsInv | records/providers_manager.go:141-241 | as long as all events were harmless, each cached provider set equals the datastore's records of its key, none of them expired at the latest purge, and what the collection may act on is what the datastore holds |
| ProviderStore.NextKeepsInv | records/providers_manager.go:161-239 | an event keeps the invariant iff it is no get of the empty key that reads the datastore while a cached provider has expired |
| ProviderStore.CollectSparesCached | records/providers_manager.go:197-216 | the collection never deletes a record of a cached key |
| ProviderStore.LoadAgrees | records/providers_manager.go:350-403 | a load agrees with the datastore it leaves |
| ProviderStore.LoadSelects | records/providers_manager.go:350-412 | a load deletes exactly the records below the key's name that are unreadable, expired or name no provider, and yields exactly the providers of the others |
| ProviderStore.NoLiveProviderLost | records/providers_manager.go:163-235 | from any datastore and with any other events, every get within the validity of an earlier add of a nonempty key and peer ID returns the provider added |
| ProviderStore.LiveProvidersKeptIff | records/providers_manager.go:163-235 | that holds in all runs iff neither the content key nor the peer ID is empty |
| ProviderStore.EmptyKeyIsLost | records/providers_manager.go:169-216 | a run that loses a provider of the empty content key |
| ProviderStore.EmptyPeerIsLost | records/providers_manager.go:281-292 | a run that loses an empty peer ID, for every content key |
| ProviderStore.CoherentIff | records/providers_manager.go:322-383 | cache and datastore agree in all states of a run iff every get of the empty key that reads the datastore finds no cached provider expired |
| ProviderStore.EmptyGetUncouples | records/providers_manager.go:350-383 | a run for every nonempty key and peer ID after which the cache holds a provider whose record such a get deleted |
| ProviderStore.NoDeadProviderReturned | records/providers_manager.go:331-403 | every provider returned, in any run, had not expired at the latest purge or the start; if all events before were harmless the time that says so is that of its record |
| ProviderStore.EmptyKeyIsCollected | records/providers_manager.go:169-216 | the collection deletes a record of the empty content key that was stale when it began and has been refreshed since |
| ProviderStore.ExpiredIsCollected | records/providers_manager.go:182-235 | a record that had expired when a collection began and was not written since is gone once the collection has looked at it |
| ProviderStore.SparesOthers | records/providers_manager.go:281-292 | the record of a nonempty content key and peer ID is written only by an add of both |
| ProviderStore.DeadProviderNotLoaded | records/providers_manager.go:350-403 | a get that reads the datastore later than the validity after the latest add of a provider does not return it |
| ProviderManagement.ProviderSet.SetVal | records/provider_set.go:27-34 | sets the time; the provider list stays duplicate-free and equal to the map's keys, in order of first addition |
| ProviderManagement.ProviderManager.constructor | records/providers_manager.go:118-139 | a new manager is the start state of the state machine |
| ProviderManagement.ProviderManager.AddProv | records/providers_manager.go:271-278 | takes the state machine's add step, changing a cached provider set in place |
| ProviderManagement.ProviderManager.WriteEntry | records/providers_manager.go:281-288 | writes the encoded time under the cleaned name and tells a collection in progress to skip it |
| ProviderManagement.ProviderManager.LoadProviderSet | records/providers_manager.go:350-403 | returns a load, and leaves the datastore without exactly the dropped records |
| ProviderManagement.ProviderManager.GetProvidersForKey | records/providers_manager.go:322-347 | takes the state machine's get step and returns exactly its providers, each once |
| ProviderManagement.ProviderManager.EvictKey | records/providers_manager.go:331-347 | takes the eviction step of the LRU cache behind it |
| ProviderManagement.ProviderManager.StartGc | records/providers_manager.go:218-235 | takes the step that purges the cache and snapshots exactly the records below the prefix |
| ProviderManagement.ProviderManager.HandleGcResult | records/providers_manager.go:182-216 | afterwards the record is there iff it was before, and it is to be skipped or its snapshot reads as a time within the validity; no other record changes |
| ProviderManagement.ProviderManager.EndGc | records/providers_manager.go:183-192 | takes the step that ends the collection |
| ProviderManagement.ProviderManager.Serve | records/providers_manager.go:141-241 | the event loop serves requests with any housekeeping in between; it performs a run of the state machine, and every provider added is in each reply for its key within the validity |
| ProviderManagement.ServedIsLive | records/providers_manager.go:163-181 | replies of a run that served requests hold every provider added within the validity |
| OptimisticProvide.NextKeepsInv | lookup_optim.go:242-318 | every step keeps: sends, completions, leases and the channel's state are accounted for |
| OptimisticProvide.RunKeepsInv | lookup_optim.go:146-318 | the invariant holds in every state of every run |
| OptimisticProvide.ProtocolSafety | lookup_optim.go:201-317 | each peer gets at most one record, nothing is sent or received on a closed channel, it is closed at most once and iff all completions are counted and outnumber the threshold, control returns only after the threshold, the smaller of the channel's capacity and the records sent; leases held equal live consumers |
| OptimisticProvide.EveryPeerIsSent | lookup_optim.go:151-161 | after the lookup every peer of its result has been sent a record |
| OptimisticProvide.CanReturnEarly | lookup_optim.go:287-304 | with leases for all completions that are left, control can be given back without waiting for any |
| OptimisticProvide.StatesTellOutcomes | lookup_optim.go:189-257 | over a run: a record was sent to a peer iff the stop function or the result named it, and success or failure is recorded iff its send returned without or with an error |
| OptimisticProvide.NeverStuck | lookup_optim.go:263-318 | until it is over, a provide that sent a record always has a goroutine of its own that can step, whatever leases others hold |
| OptimisticProvide.WorkShrinks | lookup_optim.go:242-318 | each of its steps leaves less work, so it ends |
| OptimisticProvide.OverIsClean | lookup_optim.go:306-318 | when it is over all completions were consumed once each, no lease is kept, the channel is closed iff there were more sends than waited for |
| OptimisticProvide.EndsIff | lookup_optim.go:263-304 | a run whose lookup ended and that cannot go on by itself is over iff a record was sent |
| OptimisticProvide.NothingSentHangs | lookup_optim.go:263-278 | in every run, once the lookup ended with nothing sent the goroutine stays at its first wait, whatever other provides do |
| OptimisticProvide.NothingSentRun | lookup_optim.go:146-278 | a run of this kind: the lookup's result is empty |
| OptimisticRun.Provide.StopFn | lookup_optim.go:189-239 | schedules exactly the near peers not scheduled before, and stops iff enough are live or the nearest set is near |
| OptimisticRun.Provide.AskToStop | lookup_optim.go:146-239 | the stop function is called until it asks for an end, which it does iff the nearest set is near or at least bucketSize records were sent whose send has not returned an error; the near peers at the calls made, and no others, are sent a record |
| OptimisticRun.Provide.FinishScheduling | lookup_optim.go:151-161 | takes the state machine's step that ends the lookup |
| OptimisticRun.Provide.RpcDone | lookup_optim.go:242-253 | success is recorded for a send without an error, failure for one with an error |
| OptimisticRun.Provide.SendDone | lookup_optim.go:255-257 | its completion goes to an open channel with room |
| OptimisticRun.Provide.CountConsumed | lookup_optim.go:313-317 | a consumer counts a completion and closes the channel iff it is the last of all |
| OptimisticRun.Provide.DealWithRest | lookup_optim.go:287-303 | each remaining completion gets a leased consumer or is counted here, in every interleaving |
| OptimisticRun.Provide.WaitForRPCs | lookup_optim.go:263-304 | returns after a run of the state machine if any record was sent |
| OptimisticRun.Provide.Run | lookup_optim.go:146-164 | a whole provide is a run of the state machine; all calls of the stop function are made up to the first that asks for an end; the peers sent a record are exactly the near ones at these and those of the result; all goroutines end iff there is any |
| Crawler.NextKeepsInv | crawler/crawler.go:200-284 | every step keeps: each due turn of a peer is in exactly one place, the counter matches, answers read are seen, addresses are kept |
| Crawler.RunKeepsInv | crawler/crawler.go:192-285 | the invariant holds in every state of every run |
| Crawler.SeenInEveryClosedSet | crawler/crawler.go:259-266 | nothing outside a set closed under the results read so far has been seen |
| Crawler.CrawlIsClosure | crawler/crawler.go:192-285 | at the end the peers dialed are exactly the least set that holds the addressed starting peers and is closed under the results read, whatever each dial came to; a starting peer was dialed once per entry with an address, any other once; every result was read once, no worker holds one |
| Crawler.CrawlFollowsAnswers | crawler/crawler.go:192-285 | if every peer always answers alike, they are the least set closed under the answers |
| Crawler.DialedOnceIffNoDuplicateStart | crawler/crawler.go:222-235 | each peer is dialed at most once iff no addressed starting peer is listed twice |
| Crawler.AddressedCounts | crawler/crawler.go:222-235 | each starting peer is queued once per entry that has an address |
| Crawler.DialUsesAllAddresses | crawler/crawler.go:155-189 | while a worker has a peer, the addresses known for it are exactly those that the starting peers and the results read so far name |
| Crawler.NeverStuck | crawler/crawler.go:245-284 | with a worker, or with nothing to dial, some step is possible in every state before the end |
| Crawler.EndsIff | crawler/crawler.go:199-284 | all runs that cannot go on have ended iff there is a worker or nothing to dial |
| Crawler.NoWorkersNoEnd | crawler/crawler.go:199-201 | without workers a crawl with a peer to dial never ends |
| Crawler.WorkShrinks | crawler/crawler.go:245-284 | each step leaves less work, so every crawl ends |
| CrawlRun.PeerAddrs.AddPeerAddrs | crawler/crawler.go:171-178 | the peer's addresses become the union of old and new ones, others stay |
| CrawlRun.PeerAddrs.RemoveSourceAndAddPeers | crawler/crawler.go:155-169 | the source is forgotten and the given addresses are merged in, whatever the map's order |
| CrawlRun.Crawl.ReadAddrs | crawler/crawler.go:204-207 | a worker reads for its peer exactly the addresses that the starting peers and the results read so far name, whenever it comes to reading |
| CrawlRun.Crawl.Begin | crawler/crawler.go:217-236 | queues the starting peers that have an address; the result is the start state |
| CrawlRun.Crawl.HandleResult | crawler/crawler.go:254-278 | takes the state machine's step for a result, whatever the order of the answer's map |
| CrawlRun.Crawl.Run | crawler/crawler.go:192-285 | loop and workers, in any order of moves, perform a run of the state machine that ends, if there is a worker or nothing to dial |
| PutRecords.RunKeepsInv | handlers.go:149-216 | in every interleaving a stripe's lock is held by the one request in its critical section, and what a request has read and compared is still true |
| PutRecords.NeverRegresses | handlers.go:185-214 | over any run the stored value of a key is only replaced by one at least as good |
| PutRecords.BestSubmittedWins | handlers.go:149-216 | when all requests are answered the stored value is at least as good as the one stored at first and as every valid one submitted whose selection did not fail |
| PutRecords.SelectionFailsFor | handlers.go:193-199 | a selection is reported as failed only for a pair of values for which the validator fails |
| PutRecords.ProperlyAnswered | handlers.go:150-170 | a refusal before the lock has the reason that the check gives |
| PutRecords.NeverStuck | handlers.go:174-183 | while a request is unanswered some request can go on |
| PutRecords.WaitsIff | handlers.go:174-183 | a checked request has to wait for its lock iff another one, for a key with the same last byte, is between its lock and its answer |
| PutRecords.UninterruptedRequest | handlers.go:149-216 | an undisturbed request reaches, by steps of its own, the answer and the datastore that the handler promises, and gives its lock back |
| PutRecords.Handler.HandlePutValue | handlers.go:149-216 | gives each refusal for exactly its reason; accepts iff valid and the selection prefers it to the current value, writes only then, reports failed selections and old records; the call is an uninterrupted run of the state machine |
| PutRecords.Handler.GetRecordFromDatastore | handlers.go:218-246 | the stored value; none iff nothing is stored, or it is unreadable or not valid any more |
| ValueSearch.ProcessValues | routing.go:218-260 | the loop computes the specified outcome of the values received |
| ValueSearch.NewVal | routing.go:198-215 | counts a response, streams an improvement, and closes the stop channel past the quorum |
| ValueSearch.SearchIsSound | routing.go:195-260 | best is a maximum of the values looked at, its holders are exactly the senders of those bytes, streamed values strictly improve, the stop channel is closed at most once and only on aborting; a failing selection changes nothing |
| ValueSearch.ConsideredUnlessFailing | routing.go:234-253 | until it aborts a search looks at every value, except one whose selection is asked for and fails, which changes nothing |
| ValueSearch.StreamsImprovements | routing.go:198-215 | exactly the values are streamed that improve on all looked at before and that the consumer takes, in order |
| ValueSearch.PrefixStreams | routing.go:198-215 | what was streamed stays streamed |
| ValueSearch.AbortsIff | routing.go:198-215 | a value looked at aborts the search iff more than a positive quorum were, unless it is an improvement that was not taken |
| ValueSearch.AllConsidered | routing.go:234-253 | a search that does not abort looks at every value whose selection does not fail |
| ValueSearch.AbortsAfterQuorum | routing.go:198-214 | an undisturbed search aborts iff it looks at more values than a positive quorum, at the first that exceeds it; the last value streamed is the best |
| ValueSearch.PeersToUpdate | routing.go:173-184 | the peers to update are exactly those of the result that did not send the best value |
| FullRTScan.GetClosestPeers | fullrt/dht.go:472-544 | the windowed scan chooses what one greedy pass over the ranked table chooses: an entry is chosen iff fewer than bucketSize before it are and, unless there is no limit, each of its addresses finds a place beside those that earlier entries took |
| FullRTScan.GreedyChooses | fullrt/dht.go:496-541 | that is so of the greedy pass, the places being defined from the entries alone |
| FullRTScan.NearestUnlessShared | fullrt/dht.go:460-471 | without a limit, or if no two addresses share a group, the first bucketSize ranked peers are chosen |
| FullRTScan.TryPlaces | fullrt/dht.go:512-531 | whether every address finds a place, and the places used up even if one does not |
| FullRTScan.ChosenAscend | fullrt/dht.go:496-543 | at most bucketSize peers of the table, in ascending distance, hence distinct |
| FullRTScan.GroupsAreDiverse | fullrt/dht.go:468-471 | with a positive limit at most that many returned peers share an IP group |
| FullRTScan.AdmittedIff | fullrt/dht.go:513-530 | a peer is admitted iff each address finds a place left in its group, its own earlier addresses counted |
| FullRTScan.LonePeerLeftOut | fullrt/dht.go:525-529 | the only peer of a table is left out when two of its addresses share a group and the limit is one |
| FullRTScan.LeftOutTakesPlaces | fullrt/dht.go:525-530 | a peer of the same group is left out after one that was left out itself, and chosen without it |
| ResponseFilter.FilterPeersByIPDiversity | rt_diversity_filter.go:114-163 | keeps, in order and position by position, exactly the entries of peers that share no group with more than limit distinct peers; a limit of zero keeps all |
| ResponseFilter.GroupsWithinLimit | rt_diversity_filter.go:111-113 | with a positive limit no group of the result has more distinct peers |
| ResponseFilter.GroupAfter | rt_diversity_filter.go:137-163 | a crowded group loses all its peers, any other only those crowded elsewhere |
| ResponseFilter.FilterIdempotent | rt_diversity_filter.go:114-163 | filtering twice is filtering once, for every limit |
| DiversityFilter.RunIsConsistent | rt_diversity_filter.go:46-100 | in every state of a run stored counts are positive, no bucket is stored empty, table counts are the sums of bucket counts, and both limits hold if the bucket limit is positive |
| DiversityFilter.LimitsHoldIff | rt_diversity_filter.go:46-64 | both limits hold throughout all runs iff the bucket limit is positive or the table admits nobody |
| DiversityFilter.CountsBalance | rt_diversity_filter.go:66-100 | every bucket count is the increments less the decrements for it |
| DiversityFilter.AllowsIff | rt_diversity_filter.go:46-64 | the answer by what was counted in and out: yes iff the group has room in the table, and the bucket is empty or the group has room in it |
| DiversityFilter.PeerIPGroupFilter.Allow | rt_diversity_filter.go:46-64 | true iff the table has room for the group and the bucket is absent or has room |
| DiversityFilter.PeerIPGroupFilter.Increment | rt_diversity_filter.go:66-79 | takes the increment step, keeps the counts consistent |
| DiversityFilter.PeerIPGroupFilter.Decrement | rt_diversity_filter.go:81-100 | takes the decrement step, deleting counts and buckets that become empty, keeps the counts consistent |
| MeasurementWindow.NormedDistanceRange | netsize/netsize.go:63-69 | a normed distance lies in [0, 1] and is zero only for equal keys |
| MeasurementWindow.NormedDistanceScales | netsize/netsize.go:63-69 | a normed distance times the largest one is the distance |
| MeasurementWindow.PowerDoubles | netsize/netsize.go:242-253 | the powers behind the weights double with each step, from one at zero |
| MeasurementWindow.CalcWeight | netsize/netsize.go:235-254 | the weight is two to the level of the key's bucket less the bucket size, the level being raised to the number of peers found for a bucket that is not full |
| MeasurementWindow.WeightIs | netsize/netsize.go:234-254 | the weight in terms of the number of peers found that share as many leading bits with the local key as the looked-up key |
| MeasurementWindow.WeightRange | netsize/netsize.go:222-234 | weights lie in (0, 1] and are one iff the bucket counts as full |
| MeasurementWindow.SearchYoung | netsize/netsize.go:117-122 | binary search splits a sorted list into what is too old and what is not |
| MeasurementWindow.Trim | netsize/netsize.go:115-137 | what is kept is the newest 150 of the measurements that are young enough |
| MeasurementWindow.WindowExtends | netsize/netsize.go:107-140 | the window after a measurement is the window of the whole history: trimming earlier loses nothing |
| MeasurementWindow.WindowOfWindow | netsize/netsize.go:257-282 | collecting a window gives the window of the whole history |
| MeasurementWindow.WindowIsLongest | netsize/netsize.go:117-137 | a window is the longest end of the history that is young and no longer than 150 |
| Regression.SlopeMinimises | netsize/netsize.go:203-210 | the computed slope has the least weighted squared error of all lines through the origin |
| Regression.AverageMinimises | netsize/netsize.go:179-186 | the computed average has the least weighted squared deviation of all values |
| Regression.RegressionSums | netsize/netsize.go:203-209 | both sums are positive unless every deviation is zero, and the first does not exceed the second |
| Regression.SlopeInRange | netsize/netsize.go:210-213 | a slope from such sums lies in (0, 1] and gives no negative size |
| Regression.PointIsPlausible | netsize/netsize.go:179-200 | a window's average lies in [0, 1], and its deviation is zero iff all its distances are equal |
| NetSize.EstimateIsProper | netsize/netsize.go:171-213 | unless every window is uniform the slope is in (0, 1] and fits best of all lines through the origin, and the size is not negative, hence never the invalid mark; otherwise there is no slope |
| NetSize.SamePeersGiveNoSlope | netsize/netsize.go:96-213 | after at least five trackings of the same peers for the same key within the age of a measurement all windows are long enough and uniform, and the estimate is the integer of a float that is not a number |
| NetSize.Estimator.constructor | netsize/netsize.go:47-61 | empty lists and no cached estimate |
| NetSize.Estimator.Track | netsize/netsize.go:82-143 | refuses a wrong number of peers without any change; otherwise invalidates the cache and adds one measurement per rank, each list being the window of all measurements ever made for it |
| NetSize.MeasurementMeans | netsize/netsize.go:108-114 | the measurement of a rank holds the normed distance of the peer found there, the weight of the key's bucket, and the time |
| NetSize.Estimator.GarbageCollect | netsize/netsize.go:257-282 | keeps exactly the young measurements of each list |
| NetSize.Estimator.NetworkSize | netsize/netsize.go:146-220 | cached or not, the estimate is that of the windows of all measurements made: too little data iff some window is too short, and otherwise, unless all are uniform, 1/slope - 1 rounded down, for the points at each rank with the weighted average as height and the unbiased weighted deviation as error; a cached estimate changes nothing |

## Left out

- Dialing, streams, message framing and protobuf: I/O and generated code; what a peer answers is an input to a step.
- Peerstore, connection manager, k-bucket routing table, host and event bus: not part of this repository; seed peers and bucket levels are parameters, and handing a valid peer to the routing table returns.
- Query filters, the diversity filter and the key-target exception inside a query worker (query.go:443-467): an answer may name any peers but the local one, which covers every result of filtering.
- SHA-256, IP parsing and the mapping of addresses to IP groups: a collision-free function and a partial function.
- The crawler's callbacks for successes and failures: each result read is one call.
- Texts that base32 never produces: their decoding is modelled as the whole bytes of their bits, while the decoder drops a rest of one, three or six symbols and line breaks.
- The gamma function of the optimistic thresholds (lookup_optim.go:91-92) and the average distance of the stop function: which peers are near and whether the set is near are arbitrary.
- Errors of the datastore, of GC queries and of record encoding: a failed write updates the cache but not the skip set, so the coherence theorem is about successful writes.
- Closing of the provider manager and of the crawler's job channel at their end.
- Record time stamps, and the unlocked writers of the record store (routing.go:47-67, 267-273, handlers.go:131-138): the put theorems are about concurrent PUT_VALUE requests.
- `psTryAdd` of the provider search, `execOnMany` and `divideByChunkSize` of the full routing table client: a bounded set, a counted wait and a partition would add only easy members.
- The pace of the full routing table client's crawls and bulk sends, and the value-for-effort bookkeeping of seed peers (query.go:211-235): timing heuristics.
- `providers/`, `dual/`, bootstrap, refresh, options and public-key fetching: near-duplicates or wrappers.
- Lookup events, tracing, metrics and logging: no effect on the modelled state.
- KeySpace.SpaceForValid: needs a hash without collisions on the finite universe, as SHA-256 has none in practice.
- NetSize.Estimator.NetworkSize: does not model float rounding, nor the truncation of a size that exceeds 32 bits; the concurrent fast path reads the same cached value.
- OptimisticRun.Provide.Run: the lookup is represented by the calls of the stop function, each with the nearest peers it sees and whether they are near as a set, and by its result; where nothing was sent and the program waits forever, the method returns in the state it would wait in.
- PutRecords.Handler.HandlePutValue: is the section under the lock; interleavings are those of the state machine in the same module.
