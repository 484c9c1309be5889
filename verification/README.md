# A verified model of the cache, RPC and web packages

The repository holds three small Go systems: a distributed cache (`cache`), an RPC
framework with a registry and service discovery (`rpc`), and a web engine (`web`). This
project models the parts of them whose correctness is a matter of whole runs and proves,
for all inputs and all runs of the model, what those parts guarantee and exactly where
they stop guaranteeing it. `dafny verify dfyconfig.toml` checks everything.

| file | what it models |
|---|---|
| `Lru.dfy`, `LruTheory.dfy` | the byte-bounded LRU cache as a class over list, map and counter; stack inclusion and the closed form of its contents |
| `Group.dfy` | one cache node: lookup, peer, local getter |
| `Singleflight.dfy` | `Group.Do` as interleaved steps of many goroutines |
| `Ring.dfy`, `Pool.dfy`, `Cluster.dfy`, `ClusterRuns.dfy` | the consistent-hash ring, the choice of a peer, and many nodes serving concurrently, each with its loader |
| `RpcProtocol.dfy`, `RpcClient.dfy` | client, server and two streams as one step machine; the client's table of calls as objects |
| `RpcClientTable.dfy`, `RpcServerLoop.dfy`, `RpcEndToEnd.dfy` | what every reachable state of that machine satisfies |
| `RpcDecisions.dfy`, `RpcErrors.dfy`, `RpcProgress.dfy` | over whole runs: what decides each response, where each error comes from, and that neither side gets stuck |
| `RpcFindings.dfy` | runs that show what the machine does not guarantee |
| `Middleware.dfy`, `MiddlewareStory.dfy`, `RouterGroups.dfy` | the shared-index middleware runner, the group tree and the chain of a request |
| `Wrappers.dfy` | optional values |
| `Registry.dfy`, `Strings.dfy`, `Discovery.dfy`, `XClient.dfy` | heartbeats and lazy expiry, the server list as text, cached discovery, round robin, broadcast and connections |

Mutable objects are classes whose methods are proved against functions on their abstract
value. Concurrent protocols are step machines: a step is one critical section, one codec
read or write, one return of user code or one timeout, and the theorems speak of every
state that some sequence of enabled steps reaches.

What the code does not guarantee, and where it does:

- A service method that returns an error with an empty text is reported to the caller as
  a success, because `h.Error != ""` is the only sign of an error on the wire
  (`RpcFindings.EmptyErrorLooksLikeSuccess`). `RpcEndToEnd.ExactReplyIff` states that this
  is the only exception.
- The receive loop ends with a nil error exactly when it has read the body of a response
  that carries an error or whose call was given up before, by cancellation or a failed
  write (`RpcEndToEnd.NilEndingIff`, `RpcEndToEnd.UnknownNumberIff`; runs in
  `RpcFindings.ErrorResponseSilencesOthers` and `RpcFindings.NilErrorWithoutReply`). All
  calls pending when `terminateCalls` then runs, and no others, finish with neither error
  nor reply (`RpcClientTable.TerminateFinishes`, `RpcClientTable.SilentlyFinishedIff`).
- `terminateCalls` leaves its calls in the table, so `done()` is called a second time on
  one exactly when its own write fails afterwards. On the channel of `Call`, which holds
  one, that blocks `send` for ever (`RpcFindings.CallHangs`); a channel with more room gets
  the call twice (`RpcFindings.SignalledTwice`). `RpcClientTable.SignalledTwiceIff` states
  both conditions.
- An unknown method leaves its body in the stream, and the server then reads out of step
  with the frames (`RpcFindings.UnknownMethodLeavesBody`). No reply is ever taken from what follows, because the error response
  comes first and ends the client's receive loop; so `RpcEndToEnd.EndToEnd` needs no
  assumption about the methods called.
- A smaller cache need not stay included in a larger one when a loader answers with a
  value other than the one added before (`LruTheory.InclusionNeedsCoherence`).
  `LruTheory.InclusionIff` gives the exact condition on the loader's answers.
- The owner of a key depends on the order of `Add` exactly when two peers claim one ring
  point (`Ring.OrderIrrelevantIff`). Since a label is a number followed by the peer's name,
  some names collide under every hash: with 50 virtual nodes those of which one is a digit
  followed by the other, as "a" and "1a" (`Ring.SharedLabelCollides`, `Ring.FiftyReplicas`).
  `Ring.NoCollisionsIff` gives the exact condition on names for a hash that tells labels
  apart.
- A recovered panic does not end a request: the loop around the recovering handler goes
  on behind the handler that panicked, outside the recovery
  (`Middleware.RecoveryResumesChain`). A recovering handler that calls `Next` absorbs one
  panic, so a second one behind it ends the request (`Middleware.SecondPanicEndsRequest`).
  `Middleware.Uncaught` computes from the handlers alone whose panic that is;
  `Middleware.StartedIs` and `Middleware.AllStartedIff` say which handlers start.
- The list of servers survives its trip through a header exactly when all addresses are
  non-empty, free of commas and without surrounding space (`Discovery.RoundTripIff`). An
  address with a comma makes discovery list servers that never sent a heartbeat
  (`Discovery.CommaListsStrangers`). Whatever is registered, a listed server is a piece of
  an address with a recent heartbeat (`Discovery.TwoLevelStaleness`), and all listed servers
  are alive themselves exactly when the unclean addresses have no dead pieces
  (`Discovery.AllAliveIff`).
- A caller of `Do` may join an execution that is already over
  (`Singleflight.LateJoinHappens`), but not one whose entry was deleted.

## Model

| member | source | states |
|---|---|---|
| `Lru.Cache.constructor` | cache/lru/lru.go:26-33 | an empty cache in which list, map and byte counter agree |
| `Lru.Cache.Get` | cache/lru/lru.go:36-46 | hit exactly on present keys, with the stored value; a hit moves to the front, a miss changes nothing; list and map stay in bijection |
| `Lru.Cache.MoveToFront` | cache/lru/lru.go:42 | the list becomes the touched list: the entry first, all others in their old order |
| `Lru.Cache.RemoveOldest` | cache/lru/lru.go:49-61 | the last entry leaves list, map and counter and is reported to the eviction callback; nothing happens on an empty cache |
| `Lru.Cache.Overwrite` | cache/lru/lru.go:65-70 | a present key is moved to the front with its new value and the counter follows |
| `Lru.Cache.Push` | cache/lru/lru.go:72-80 | an absent key enters at the front and the counter follows |
| `Lru.Cache.EvictOverflow` | cache/lru/lru.go:82-84 | the eviction loop terminates and leaves the longest fitting prefix, the evicted suffix reported oldest first |
| `Lru.Cache.Add` | cache/lru/lru.go:64-85 | the byte bound holds afterwards, the contents are the new pair and the others trimmed, the evicted ones are reported oldest first, and list, map and counter agree |
| `Lru.TrimIsLongestFittingPrefix` | cache/lru/lru.go:82-84 | trimming keeps the longest prefix that fits: exactly the shortest sufficient suffix of oldest entries goes |
| `Lru.TrimUnique` | cache/lru/lru.go:82-84 | a fitting prefix that cannot be extended is the trimmed list |
| `Lru.EvictionEndsIff` | cache/lru/lru.go:82-84 | evicting from the back can make the loop guard false if and only if the bound is not negative |
| `Lru.TouchPresent` | cache/lru/lru.go:36-46 | a hit permutes the list: same keys, same bytes, still distinct |
| `Lru.WithoutPresent` | cache/lru/lru.go:64-70 | with distinct keys taking out a key takes out one position, and the byte sum drops by its size |
| `LruTheory.RunKeeps` | cache/lru/lru.go:36-85 | over any run of adds and read-through requests keys are distinct and the bound holds |
| `LruTheory.BothStayIff` | cache/lru/lru.go:64-85 | two added entries stay together if and only if the bytes of both keys and values are within the bound, or the bound is 0 |
| `LruTheory.HitIsPut` | cache/lru/lru.go:36-85 | a hit has the effect of adding the stored value again |
| `LruTheory.CoherentRun` | cache/lru/lru.go:36-85 | with a loader that answers the latest value, the cache holds latest values and every operation amounts to an add |
| `LruTheory.StackInclusion` | cache/lru/lru.go:36-85 | over any such run the smaller cache's recency list is a prefix of the larger one's, in keys and values |
| `LruTheory.LargerNeverMisses` | cache/lru/lru.go:36-85 | the larger cache hits wherever the smaller one does, with the same value |
| `LruTheory.InclusionStep` | cache/lru/lru.go:64-85 | one operation keeps the inclusion if and only if, on a read that only the larger cache answers, the loader gives the stored value or one too large to be kept |
| `LruTheory.InclusionIff` | cache/lru/lru.go:36-85 | over arbitrary adds and reads the smaller cache is included after every step if and only if every read satisfies that condition |
| `LruTheory.InclusionNeedsCoherence` | cache/lru/lru.go:64-85 | a run with bounds 2 and 4 in which a contradicting loader breaks the inclusion |
| `LruTheory.ByLastRequestIsDistinct` | cache/geecache.go:78-89 | the order by last request lists every requested key exactly once |
| `LruTheory.HitStep` | cache/lru/lru.go:36-46 | a hit keeps the cached keys the longest affordable prefix of the keys by last request |
| `LruTheory.MissStep` | cache/lru/lru.go:64-85 | so does a miss followed by an add |
| `LruTheory.ClosedForm` | cache/geecache.go:78-131 | after any history of read-through requests with a fixed size per key, the cached keys in recency order are the longest prefix within the bound of the distinct requested keys by last request |
| `Group.Group.Get` | cache/geecache.go:78-89 | an empty key is refused, a hit is answered from the cache; otherwise an answering peer decides, uncached, and else the getter, whose answer is added |
| `Group.Group.Load` | cache/geecache.go:91-131 | an answering peer's value is the answer and is not cached, a missing or failing peer falls back to the getter, and only the getter's answer is added, whether or not another request has cached the key meanwhile; otherwise the load fails and the cache stays |
| `Group.ServedIsRun` | cache/geecache.go:78-131 | any history of requests, with hits, peers, failures and empty keys, takes the cache through the read-through run of those that hit or were loaded locally |
| `Group.Transparent` | cache/geecache.go:78-131 | after any history in which peers and getters fail or give the key's value, a request gets that value if and only if the key is cached or its peer or getter answers; otherwise it fails |
| `Singleflight.InvStep` | cache/singleflight/singleflight.go:16-42 | every step of every goroutine keeps the invariant that ties map, call objects, callers and the trace of events |
| `Singleflight.NoOverlap` | cache/singleflight/singleflight.go:16-42 | in every reachable state two executions for one key do not overlap, and each call object is executed once |
| `Singleflight.DeletesOwnEntry` | cache/singleflight/singleflight.go:37-39 | a leader's delete removes its own call object and no other |
| `Singleflight.ReturnsTheExecution` | cache/singleflight/singleflight.go:22-41 | leader and joiners return exactly the value and error of the one execution of the call object they led or joined |
| `Singleflight.NoJoinAfterDelete` | cache/singleflight/singleflight.go:22-39 | nobody joins a call object after its entry was deleted |
| `Singleflight.EnterJoinsIff` | cache/singleflight/singleflight.go:16-33 | Do joins if and only if a call for that very key is in flight, and then that call; otherwise it makes a new one for the key |
| `Singleflight.AskedFor` | cache/singleflight/singleflight.go:16-33 | in every run whoever called Do with a key leads or has joined a call for that key, ever after |
| `Singleflight.EventsAskedFor` | cache/singleflight/singleflight.go:22-41 | so the call in each of its Join and Return events is for that key |
| `Singleflight.LeaderAsked` | cache/singleflight/singleflight.go:27-31 | a call's leader called Do for the call's key |
| `Singleflight.OutcomeOf` | cache/singleflight/singleflight.go:34 | a call's value and error are what fn returned to its leader |
| `Singleflight.DoReturns` | cache/singleflight/singleflight.go:16-42 | in every run a caller that asked for a key and has returned holds exactly what fn returned to a leader that asked for the same key |
| `Singleflight.NeverStuck` | cache/singleflight/singleflight.go:16-42 | in every reachable state a caller that has not returned can take a step, or has joined a call whose leader can |
| `Singleflight.LateJoinHappens` | cache/singleflight/singleflight.go:34-39 | for every key and result there is a run in which a caller joins after the execution ended |
| `Ring.Map.Add` | cache/consistenthash/consistenthash.go:34-43 | after any sequence of calls the slice is sorted, its numbers are exactly the hashes of the `replicas` labels of each added peer, a label being a number from 0 followed by the name, and each is mapped to the last peer with a label there |
| `Ring.Map.AddPeer` | cache/consistenthash/consistenthash.go:36-40 | after the inner loop the ring holds exactly the hashes of the labels 0 to replicas - 1 of the peers so far and of the new one, each mapped to the last peer with a label there |
| `Ring.Map.Search` | cache/consistenthash/consistenthash.go:53-55 | the binary search finds the boundary between smaller points and the rest |
| `Ring.Map.Get` | cache/consistenthash/consistenthash.go:46-59 | the owner by definition: the peer whose label the key ends up at, going up from its hash and round, the last added if several have a label there; no peer without peers or virtual nodes |
| `Ring.CeilingAt` | cache/consistenthash/consistenthash.go:51-58 | index modulo length is the least point at or above the hash, or the least of all when there is none |
| `Ring.OwnerIs` | cache/consistenthash/consistenthash.go:46-59 | the owner is the last writer of that point, and one of the added peers |
| `Ring.WriterFacts` | cache/consistenthash/consistenthash.go:34-41 | a number is a ring point exactly when it has a last writer, which is an added peer that claims it |
| `Ring.PointsIff` | cache/consistenthash/consistenthash.go:35-38 | the ring points are exactly the hashes of all labels of the added peers |
| `Ring.LastWriterIff` | cache/consistenthash/consistenthash.go:39 | a point belongs to the last peer in the order of adding that has a label there |
| `Ring.OwnerByLabels` | cache/consistenthash/consistenthash.go:46-59 | with peers and virtual nodes every key ends up at some label, whose peer owns it; otherwise the owner is empty |
| `Ring.ReachedOwns` | cache/consistenthash/consistenthash.go:46-59 | and a peer whose label the key ends up at owns it |
| `Ring.ItoaReads` | cache/consistenthash/consistenthash.go:37 | the digits in front of a label, read as a decimal number, are the number of the virtual node |
| `Ring.SampleOwners` | cache/consistenthash/consistenthash_test.go:9-32 | on a ring with three virtual nodes for each of "6", "4" and "2" and a hash that reads decimal numbers, the owners of four keys |
| `Ring.MinimalDisruption` | cache/consistenthash/consistenthash.go:34-59 | for any hash, after adding peers a key's owner is unchanged or one of the added peers |
| `Ring.OrderIrrelevant` | cache/consistenthash/consistenthash.go:34-59 | without collisions two lists of the same peers give every key the same owner |
| `Ring.OrderMatters` | cache/consistenthash/consistenthash.go:39 | a point claimed by two peers makes two orders disagree about some key |
| `Ring.OrderIrrelevantIff` | cache/consistenthash/consistenthash.go:34-59 | all orders agree about all keys if and only if no point is claimed by two peers |
| `Ring.SharedLabelIff` | cache/consistenthash/consistenthash.go:37 | two names share the label of some virtual node if and only if one is the other with digits in front such that 1 followed by these digits is a number of a virtual node |
| `Ring.SharedLabelCollides` | cache/consistenthash/consistenthash.go:37-39 | such names claim a common point under every hash |
| `Ring.NoCollisionsIff` | cache/consistenthash/consistenthash.go:34-43 | for a hash that tells labels apart, no point is claimed twice, and the order of adding is irrelevant, if and only if no two names are such |
| `Ring.FiftyReplicas` | cache/http.go:76-87 | with 50 virtual nodes these are the names of which one is a digit followed by the other |
| `Pool.HTTPPool.constructor` | cache/http.go:30-35 | a pool without a ring, with 50 virtual nodes per peer |
| `Pool.HTTPPool.Set` | cache/http.go:76-87 | the ring holds exactly the given peers and each has a getter at its own URL |
| `Pool.HTTPPool.PickPeer` | cache/http.go:90-99 | a peer is picked exactly when the owner is another node, and the getter returned exists and is that owner's |
| `Pool.NonEmptyOwnerIsAPeer` | cache/http.go:94-96 | a non-empty owner is one of the peers given to Set |
| `Cluster.OwnersAgree` | cache/http.go:76-99 | nodes that Set the same peers in any order, without collisions, name one owner for every key, and only the owner picks no peer |
| `Cluster.FlightsStep` | cache/geecache.go:91-111 | every step of every node keeps the loaders' call maps in agreement with the requests that lead and join |
| `Cluster.OneLoadPerKey` | cache/geecache.go:92-105 | in every reachable state at most one request per node and key is loading, from a peer or locally; the others wait for it |
| `Cluster.InvStep` | cache/geecache.go:78-131 | every step of every node keeps routing, caches and answers correct |
| `Cluster.AtMostOneHop` | cache/geecache.go:91-111 | in every reachable state a request has made at most one hop, a forwarded one is at the owner, and the owner never forwards |
| `Cluster.CachedAtOwner` | cache/geecache.go:91-131 | a node caches a key, always with the true value, only if it owns the key or failed to get it from the owner; without failures only at the owner |
| `ClusterRuns.AnswersAreData` | cache/geecache.go:78-131 | in every run a finished request for a non-empty key holds the true value, by hit, peer, load or join, unless its own node's getter has failed for that key; with no such failure all do |
| `ClusterRuns.FailsOnlyIf` | cache/geecache.go:78-131 | whatever the nodes' lists are, a request fails only if its key is empty or its own node's getter has failed for it |
| `ClusterRuns.FailedIs` | cache/geecache.go:97-103 | the recorded failures to get a key from a peer are exactly those of the run |
| `ClusterRuns.LoadGives` | cache/geecache.go:91-131 | the getter's failure fails the request, its value or the peer's is the request's answer, and a joined request gets its leader's |
| `ClusterRuns.LoadIsShared` | cache/geecache.go:91-111 | over any run a request whose getter failed has failed for good, and one that joined a load holds the leader's answer ever after |
| `ClusterRuns.ArrivedAs` | cache/geecache.go:78 | over any run a request stays the one for the node and key it arrived with |
| `ClusterRuns.LookIs` | cache/geecache.go:78-89 | an empty key is refused, a cached key is answered at once with the true value, any other goes on to the load |
| `ClusterRuns.CacheIsRun` | cache/geecache.go:83-131 | in every run each node's cache is that of the cache theory after the node's own hits and loads |
| `ClusterRuns.NeverStuck` | cache/geecache.go:78-131 | nodes and requests never wait for each other in a circle: for every unfinished request some request for its key can take a step, without a failure of network or getter |
| `RpcClient.Client.RegisterCall` | rpc/client.go:243-253 | the update of the call object and the table is the protocol's registration, also after the sequence number has wrapped; before that, the number is not in the table |
| `RpcClient.Client.RemoveCall` | rpc/client.go:255-265 | the update of the table is the protocol's removal; the call under the number is returned, nil when there is none |
| `RpcClient.Client.TerminateCalls` | rpc/client.go:267-277 | the loop over the table is the protocol's termination: every pending call gets the error and one signal, and none leaves the table |
| `RpcClientTable.InvStep` | rpc/client.go:194-277 | every client step keeps numbers, table, takers and signals consistent |
| `RpcClientTable.PendingTableOwnership` | rpc/client.go:243-265 | in every reachable state below 2^64 calls, numbers are unique, a table entry is the call with that number below seq (or seq has wrapped to 0), and removeCall gave each call to at most one taker |
| `RpcClientTable.SignalledAtMostOnce` | rpc/client.go:97-118 | until terminateCalls ran no call is signalled twice, and one about to be signalled has no signal, so a Done channel of capacity one does not block |
| `RpcClientTable.SignalledTwiceIff` | rpc/client.go:211-219 | a call whose Done channel has room is signalled twice, and one without room blocks send, if and only if it was pending when terminateCalls ran and its own write failed; never three times |
| `RpcClientTable.SecondSignalIff` | rpc/client.go:211-219 | a step signals a call again or blocks send if and only if it is that call's failed write, on a call that terminateCalls left in the table and that is still there; which of the two depends on the room in the channel |
| `RpcClientTable.BlockedForEver` | rpc/client.go:29-34 | over any continuation of a run a send that is blocked stays blocked |
| `RpcClientTable.SilentlyFinishedIff` | rpc/client.go:87-121 | a call is finished with neither error nor reply if and only if it was pending when terminateCalls ran with a nil error and its write has not failed; no call has both |
| `RpcClientTable.TerminateFinishes` | rpc/client.go:267-277 | terminateCalls signals exactly the pending calls, with neither error nor reply if and only if the loop ended with a nil error |
| `RpcServerLoop.InvStep` | rpc/server.go:119-225 | every server step keeps requests, wait group, mutex and response attempts consistent |
| `RpcServerLoop.StreamStep` | rpc/server.go:182-189 | every server step keeps the response stream a sequence of frames in the order of attempts |
| `RpcServerLoop.AttemptsExact` | rpc/server.go:123-140 | every step keeps one response attempt per request, and a request for an unknown method answered before all later requests |
| `RpcServerLoop.AtMostOneResponse` | rpc/server.go:191-225 | each response attempt carries its request's number and method, no request gets two, and one without an error is what its own finished service call returned: its reply, or the placeholder for an error with an empty text |
| `RpcServerLoop.ClosedMeansAllAnswered` | rpc/server.go:119-140 | when serveCodec has closed the connection no handler is in flight and every decoded header has had its response attempt |
| `RpcServerLoop.FramesDoNotInterleave` | rpc/server.go:182-189 | whatever the handlers' order, delivered tokens are a prefix of whole frames; with the mutex free and the connection intact, all of them |
| `RpcDecisions.ResponseIs` | rpc/server.go:119-225 | in every run each response was decided by exactly one step and carries what that step stands for: the reply or the error of the service call whose result was taken, or the text of a timeout, an unknown method or unreadable arguments |
| `RpcDecisions.DecidedOnce` | rpc/server.go:206-214 | no request is decided twice, so a timeout and a result exclude each other |
| `RpcDecisions.OutcomeIs` | rpc/server.go:201-204 | the recorded outcome of a request is what its own service call returned at some step |
| `RpcDecisions.InTimeResponse` | rpc/server.go:194-225 | a request handed to its service that did not time out, or whose server has no timeout, is answered with exactly what the service call returned |
| `RpcEndToEnd.RequestsStep` | rpc/client.go:194-220 | the request stream stays a sequence of frames of issued calls, one per number |
| `RpcEndToEnd.AlignedStep` | rpc/server.go:153-180 | as long as no earlier request named an unknown method, request r is decoded from frame r, and the read position follows the frames |
| `RpcEndToEnd.RepliesStep` | rpc/client.go:87-118 | a stored reply is the body of a success frame with the call's own number, before which no error was sent |
| `RpcEndToEnd.OneRequestPerNumber` | rpc/server.go:153-180 | no two requests decoded in step have the same number |
| `RpcEndToEnd.RequestOfCall` | rpc/server.go:153-180 | a request decoded in step has the method and arguments of the call with its number |
| `RpcEndToEnd.RegisteredIsInStep` | rpc/server.go:158-164 | with registered methods only, every request is in step |
| `RpcEndToEnd.DeliveryIsInStep` | rpc/server.go:123-134 | a response that no error response precedes answers a request in step, because an unknown method before it was answered first |
| `RpcEndToEnd.EndToEnd` | rpc/client.go:87-121 | in every reachable state, whatever methods are called, a call completed by the success branch reached the server as a request in step, the only one in step with its number, with its own method and arguments, and holds what the service returned for it |
| `RpcEndToEnd.ExactReplyIff` | rpc/server.go:217-225 | that is the reply the method computed if and only if the method did not return an error with an empty text |
| `RpcEndToEnd.InTimeAnswer` | rpc/server.go:194-225 | in step, that is its reply and an empty error, or its error and the placeholder |
| `RpcEndToEnd.HeaderIsIssued` | rpc/client.go:87-97 | every response header the client reads has the number of one of its calls |
| `RpcEndToEnd.NoSecondResponse` | rpc/client.go:97 | a call that has its reply gets no further response |
| `RpcEndToEnd.UnknownNumberIff` | rpc/client.go:97-102 | a response finds its call in the table unless the call was cancelled or its write failed, and then it does not |
| `RpcEndToEnd.NilEndingIff` | rpc/client.go:87-121 | a step ends the receive loop with a nil error if and only if it reads the body behind a header that carries an error or whose call was given up |
| `RpcErrors.RegisteredAs` | rpc/client.go:243-253 | in every run a call keeps the method and arguments it was registered with, under the number that was next then |
| `RpcErrors.ErrorStep` | rpc/client.go:87-121 | after every step a call holds the error that the step stores in it, from its failed write, its response's header, a failed read of its reply or the end of the loop, and otherwise the one it held |
| `RpcErrors.ErrorOf` | rpc/client.go:87-121 | in every run the error a call holds is the latest that a step stored in it |
| `RpcErrors.ErrorEndToEnd` | rpc/client.go:104-110 | and one taken from a response is the error with which the server answered that call's own request |
| `RpcProgress.ServerNeverStuck` | rpc/server.go:119-225 | in every reachable state an unanswered request waits for its arguments, or there is a step for it or for the holder of the mutex, the timeout included where it applies |
| `RpcProgress.ReceiverReads` | rpc/client.go:87-118 | the receive loop never takes a header for a body or the reverse: the read that comes next fits the token that comes next |
| `RpcProgress.NothingAfterFailedWrite` | rpc/codec/gob.go:48-67 | a failed write breaks its stream, and nothing is delivered on a broken one |
| `RpcFindings.ReplyArrives` | rpc/server.go:206-214 | with and without a handle timeout, a reachable state in which the caller holds the reply the method returned and no error |
| `RpcFindings.UnknownMethodLeavesBody` | rpc/server.go:123-134 | a reachable state in which the server, having refused an unknown method, has read that request's body as the header of a request that no call sent |
| `RpcFindings.EmptyErrorLooksLikeSuccess` | rpc/client.go:104-117 | a reachable state in which a failed method's call has finished without an error |
| `RpcFindings.NilErrorWithoutReply` | rpc/client.go:97-102 | a reachable state in which a call has finished with neither error nor reply |
| `RpcFindings.ErrorResponseSilencesOthers` | rpc/client.go:104-110 | a reachable state without cancellation in which one call holds its error and an unrelated one has finished with neither error nor reply |
| `RpcFindings.SignalledTwice` | rpc/client.go:211-219 | a reachable state in which a call was put twice on a Done channel with room |
| `RpcFindings.CallHangs` | rpc/client.go:182-192 | a reachable state in which the send of a call with a channel for one is blocked, whatever step follows |
| `Middleware.Context.Next` | web/engine/context.go:37-43 | the loop over the shared index terminates, re-entered or not, with the trace, index and panic of the chain function |
| `Middleware.Context.Call` | web/engine/context.go:41 | one handler that calls Next any number of times, panics or recovers leaves the trace and index of the handler function |
| `Middleware.Context.Body` | web/engine/context.go:41 | the handler's own acts, with Next re-entered, leave the trace, index and panic of the acts function |
| `Middleware.ChainIsOnion` | web/engine/context.go:37-43 | for all non-panicking handlers the shared-index runner has the trace of the onion: the first Next runs the rest, later ones nothing, and without one the rest follows |
| `Middleware.ActsAreLayer` | web/engine/context.go:37-43 | the same for the part of one handler still to run, at any state of the index |
| `MiddlewareStory.ChainIsStory` | web/engine/context.go:37-43 | for all handlers, with panics and recovery anywhere, the whole trace is the one told from the handlers without the shared index |
| `Middleware.EachStartsOnce` | web/engine/context.go:40-42 | every handler starts exactly once, in order |
| `Middleware.StartsContiguous` | web/engine/context.go:37-43 | with panics and recovery anywhere, the handlers started are exactly those up to where the index got, each once, in order, none skipped |
| `Middleware.StartsIncrease` | web/engine/context.go:37-43 | so the positions of started handlers strictly increase |
| `Middleware.PanicsIff` | web/engine/context.go:37-43 | for every list of handlers, whether the loop panics and where its index ends is what the definitions on the handlers' acts and recoveries say |
| `Middleware.StartedIs` | web/engine/context.go:37-43 | the handlers started are exactly those up to the one whose panic is uncaught, each once, in order |
| `Middleware.AllStartedIff` | web/engine/context.go:37-43 | a request starts all its handlers if and only if no handler before the last panics uncaught, as computed from the handlers alone |
| `Middleware.RecoveryResumesChain` | web/engine/context.go:40-42 | when the acts of a recovering handler panic, the chain resumes right behind the handlers started so far, the last of them the one whose panic was absorbed, starts those it reaches, and panics if and only if what is behind does |
| `Middleware.RecoveryExample` | web/engine/context.go:40-42 | an instance with three handlers |
| `Middleware.SecondPanicEndsRequest` | web/engine/context.go:40-42 | an instance in which a second panic behind an absorbed one keeps the last handler from starting |
| `RouterGroups.Engine.constructor` | web/engine/engine.go:13-22 | one root group with an empty prefix and no middlewares |
| `RouterGroups.Engine.Group` | web/engine/router_group.go:12-23 | a new last group under its parent, with the parent's prefix extended; the tree stays ordered |
| `RouterGroups.Engine.Use` | web/engine/router_group.go:38-40 | the middlewares are appended to the group's own |
| `RouterGroups.Engine.Assemble` | web/engine/router.go:28-36 | the context's handlers are cut into one piece per group in order of creation, the group's middlewares if the path has its prefix and nothing otherwise, and then the route's handler |
| `RouterGroups.Engine.Serve` | web/engine/router.go:27-39 | a request is the story of those middlewares and the handler, without panics their onion, and the handler alone when no group that matches has middlewares |
| `RouterGroups.IncludedTiles` | web/engine/router.go:29-33 | the included middlewares consist of exactly the pieces of the groups that match |
| `RouterGroups.IncludedSplit` | web/engine/router.go:29-33 | around any one group: those before it, its own if and only if it matches, those behind it |
| `RouterGroups.Engine.AncestorsIncluded` | web/engine/router.go:29-33 | a request that matches a group matches all its ancestors, which were created before it |
| `RouterGroups.Engine.ChainOrder` | web/engine/router.go:28-36 | in the chain an ancestor's middlewares stand, as a block, before the group's |
| `Registry.Registry.PutServer` | rpc/registry/registry.go:70-80 | a heartbeat is recorded, new or not, and map and history stay in agreement |
| `Registry.Registry.Sweep` | rpc/registry/registry.go:86-95 | the loop collects each alive address once and deletes only what has timed out |
| `Registry.Registry.AliveServers` | rpc/registry/registry.go:82-99 | the answer is the strictly sorted list of exactly the addresses whose latest heartbeat plus timeout is after now (all with timeout 0), whatever was deleted before |
| `Registry.AliveIff` | rpc/registry/registry.go:82-99 | an address is alive if and only if some heartbeat of it has not timed out; with timeout 0, once it has sent one |
| `Registry.LastPutGrows` | rpc/registry/registry.go:70-80 | over any later events the last heartbeat of an address only moves forward |
| `Registry.HeartbeatsKeepListed` | rpc/registry/registry.go:82-107 | a heartbeat within the last period, shorter than the timeout, keeps a server listed |
| `Registry.DefaultPeriodSuffices` | rpc/registry/registry.go:103-108 | the default period of four minutes is enough for the default timeout of five |
| `Strings.SortedIsUnique` | rpc/registry/registry.go:97 | a set of addresses has one strictly sorted list |
| `Discovery.RoundTrip` | rpc/xclient/discovery_gee.go:58-64 | joining and then splitting, trimming and dropping blanks gives back any list of clean addresses, the empty one included |
| `Discovery.RoundTripIff` | rpc/registry/registry.go:47 | and gives back no other list |
| `Discovery.ParseIsClean` | rpc/xclient/discovery_gee.go:58-64 | whatever the header, the parsed addresses are non-empty, without commas and trimmed |
| `Discovery.ParseOfJoin` | rpc/xclient/discovery_gee.go:58-64 | any list, clean or not, comes back as the concatenation of what its entries parse to |
| `Discovery.TrimIs` | rpc/xclient/discovery_gee.go:60-63 | trimming takes off space at both ends and nothing else, and leaves nothing exactly of a blank text |
| `Discovery.KeepOne` | rpc/xclient/discovery_gee.go:58-64 | a part is dropped if and only if it is blank, and trimmed otherwise |
| `Discovery.JoinOfSplit` | rpc/xclient/discovery_gee.go:58 | the parts are the text cut at its commas: joined again they give it back |
| `Discovery.GeeRegistryDiscovery.constructor` | rpc/xclient/discovery_gee.go:19-30 | an empty list never fetched; timeout 0 becomes ten seconds |
| `Discovery.GeeRegistryDiscovery.Refresh` | rpc/xclient/discovery_gee.go:42-68 | a fresh list is kept, an HTTP error keeps the old one and is reported, otherwise the parsed header replaces it |
| `Discovery.GeeRegistryDiscovery.RoundRobin` | rpc/xclient/discovery.go:66-81 | the server at index modulo length, and the index advances; nothing on an empty list |
| `Discovery.WorldInv` | rpc/xclient/discovery_gee.go:42-76 | over any timed run the heartbeats are in order and the cached list is what the header of the registry's exact list gave at the moment it was fetched |
| `Discovery.TwoLevelStaleness` | rpc/xclient/discovery_gee.go:42-84 | a list answered at time t was fetched at a moment no older than the discovery timeout T; whatever is registered, a server is listed if and only if it is a piece of an address alive at that moment, and with registry timeout R each such address has a last heartbeat, both by then and by t, later than t - T - R; all listed servers are alive themselves if and only if no unclean address has a dead piece, and the list is the registry's exact list if and only if that is clean |
| `Discovery.ListedIsRecent` | rpc/registry/registry.go:82-99 | an address alive at a moment has sent its last heartbeat less than the registry timeout before |
| `Discovery.ListedIff` | rpc/xclient/discovery_gee.go:58-64 | for any history a server is in the fetched list if and only if it is a piece of an address alive then |
| `Discovery.AllAliveIff` | rpc/xclient/discovery_gee.go:58-64 | all listed servers are alive themselves if and only if every piece of every alive unclean address is alive |
| `Discovery.AliveIsRecent` | rpc/xclient/discovery_gee.go:42-68 | what was alive in a snapshot within the discovery timeout has a last heartbeat younger than both timeouts together |
| `Discovery.CleanStaleness` | rpc/xclient/discovery_gee.go:42-84 | with clean heartbeats every listed server has sent one of its own later than t - T - R |
| `Discovery.Announce` | rpc/registry/registry.go:48-55 | a heartbeat takes the registry and discovery objects through that step of the run |
| `Discovery.Browse` | rpc/registry/registry.go:45-47 | so does a listing by somebody else, which gets the header of the exact list |
| `Discovery.RefreshFrom` | rpc/xclient/discovery_gee.go:42-68 | so does a refresh of the discovery object against the registry object, reached or not |
| `Discovery.GetAll` | rpc/xclient/discovery_gee.go:78-84 | on the objects: after any run every server returned is a piece of an address whose latest heartbeat at the registry is younger than both timeouts together |
| `Discovery.CleanHeartbeatsSuffice` | rpc/registry/registry.go:50-55 | servers that announce clean addresses make every list clean |
| `Discovery.CommaListsStrangers` | rpc/xclient/discovery_gee.go:58-64 | a run in which one heartbeat for an address with a comma makes discovery list two servers that never sent one |
| `Discovery.PicksBalance` | rpc/xclient/discovery.go:77-81 | a count of picks equals the window plus a difference of distances on the circle |
| `Discovery.RoundRobinIsFair` | rpc/xclient/discovery.go:77-81 | over any window of m picks on n servers each position is chosen m/n times, rounded down or up |
| `Discovery.GeeRegistryDiscovery.RoundRobinWindow` | rpc/xclient/discovery.go:66-85 | m round-robin picks on an unchanged list of n servers return each position m/n times, rounded down or up; on an empty list all fail |
| `XClient.Broadcast` | rpc/xclient/xclient.go:80-123 | for every completion order the result is the first error in lock order, the reply is set once, by the first success, and cancel is called exactly on an error |
| `XClient.NilIffAllSucceed` | rpc/xclient/xclient.go:105-122 | the error is nil exactly when all calls succeeded; otherwise all before the reported failure succeeded |
| `XClient.ReplyFromFirstSuccess` | rpc/xclient/xclient.go:111-113 | there is a reply exactly when some call succeeded, and all before its call failed |
| `XClient.OrderDoesNotDecide` | rpc/xclient/xclient.go:105-122 | whether an error is reported does not depend on the completion order |
| `XClient.Connections.Dial` | rpc/xclient/xclient.go:37-60 | an available client is reused, an unusable one closed and replaced by a new one; no client is returned if and only if none is available and dialling fails; every client ever dialled is closed or the mapped one for its address |
| `XClient.Connections.Close` | rpc/xclient/xclient.go:25-35 | every client ever dialled is closed and the table is empty |

## Left out

- Sockets, HTTP, gob, JSON and logging: codecs are streams of header and body tokens, with writes that fail or are lost at any token and streams that are cut anywhere. Peers receive group and key unchanged, although the getter escapes them for a query and puts them in a path.
- Concurrent client writes: the client takes no lock around `cc.Write` (rpc/client.go:211); each client write is one atomic step of the model.
- Services are arbitrary outcomes per request; the reflection of `rpc/service.go` is not modelled. A reply read from the placeholder of an error response may decode or fail, as the reply type decides in gob.
- Liveness of RPC calls: the progress theorems say that a step is possible, not that it is taken, so none says that every call completes; after the receive loop has ended a registered call may wait for ever.
- RpcClientTable.PendingTableOwnership: not beyond 2^64 - 1 calls, after which the sequence number has wrapped to 0.
- RpcClientTable.SignalledTwiceIff: each call has its own Done channel; one channel passed to `Go` for several calls is not modelled.
- Lru.Cache.Add: not with a negative `maxBytes`, with which the eviction loop never ends (cache/lru/lru.go:82-84). Eviction callbacks are recorded and do not call back into the cache. Byte counts do not overflow.
- ClusterRuns.AnswersAreData: getters answer a key with one value or an error; storing a call's outcome and releasing its wait group are one step, which `Singleflight.dfy` separates.
- Singleflight.ReturnsTheExecution: functions that panic are not modelled.
- Middleware.Context.Call: what a recovering handler does after a panic, such as writing a response, is not traced. Since a position starts at most once, a handler's behaviour is a list of acts.
- Ring.Map.Get: CRC32 is an arbitrary hash function to natural numbers; the slice is a sequence and the sort a function.
- Discovery.TwoLevelStaleness: time is a non-decreasing integer, a refresh takes no time, and the manual `Update` is not modelled.
- Discovery.GeeRegistryDiscovery.RoundRobin: the index does not overflow; random selection and the error for an unknown mode are not modelled.
- XClient.Broadcast: the calls themselves are their outcomes in the order in which they take the lock; fetching the server list is not modelled.
- RouterGroups.Engine.Assemble: the aliasing of Go slices that share a backing array is not modelled.
- `rpcx`, the debug page, option parsing, context response helpers, the heartbeat ticker and the `main` programs would only add easier members.
