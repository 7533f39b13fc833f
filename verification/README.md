# Verified model of the animate server

The server lets many clients animate shared canvases. A client writes request
lines into a pipe; the server cuts its bytes into lines, hands each line to a
pool of worker threads, and writes one reply line per request back in request
order. Canvases can be shared between users, who meet at a per-canvas barrier.

The project models the path of a request from the client's keyboard to its
screen and proves what the code promises along it.

* **Worker pool.** `Schedule` is the client list as a value: the queues in list
  order, the rotating `next_client` position and the pending counter. `Fairness`
  proves bounded waiting over runs with arrivals and removals. `WorkerPool`
  is the doubly linked list of clients, each with its singly linked list of
  requests, on the heap; each method refines its `Schedule` function.
* **Reply ring.** `ReplyRing` has the reorder buffer as a map (`Output`) and as
  the 1024-slot array of `ClientState`, with partial, interrupted and failing
  writes.
* **The pool as a step system.** `PoolSystem` takes one step per critical
  section, for any number of workers and clients; `PoolInvariant` proves the
  invariant, `PoolTheorems` what follows: conservation of requests, reply order,
  no lost wakeup, window-sufficient progress, fairness, draining at shutdown.
  `Overrun` says when the window loses replies.
* **Handle store and barrier.** `Store` is the handle store as a value,
  `HandleStore` the records on the heap, `BarrierSystem` the worker threads
  handling requests on it under its mutex, `BarrierInvariant` and
  `BarrierTheorems` the results. `Meeting` relates barriers to the number of
  workers. `Requests` says what every request does to who is on a canvas,
  connected and waiting, and traces each call of the animation library and each
  placement to the request that asked for it. `Server` joins the canvases and the
  logins to the pool.
* **Framing.** `Framing` compares the 4096-byte read buffer, compacted in place,
  with a framer that takes one byte at a time.
* **Wire and client.** `Text` has the C library's number and token routines,
  `Wire` the reply formats and their decoding, `Client` the client's main loop,
  `Typed` what becomes of each typed line,
  `Generate` the frame loop of the generate request.
* **End to end.** `EndToEnd` joins client, framer, pool and ring.

Runs are finite sequences of events. Whatever the environment decides (who is
scheduled or woken, what a handler answers, how reads and writes are split,
what the animation library returns) is part of the event or an argument, so a
statement about all runs is a statement about all schedules. A mutex makes its
critical section one step; `pthread_cond_signal` wakes at least one sleeper;
wakeups may be spurious; allocation succeeds; 64-bit counters do not overflow.

## What the code does not guarantee

These are properties one might expect and the code does not have; each has its
exact condition.

* A reply that is 1024 or more ahead of the next one due is thrown away, and the
  client's stream never gets past its number (`RefusedIffPastWindow`,
  `MissingStalls`, `OverflowStalls`). All replies go out exactly if none was
  thrown away (`AllSentIffNoneDiscarded`), which is so when the client is never
  allowed 1024 unanswered requests (`PacedClientLosesNothing`), and always with a
  single worker (`OneWorkerLosesNothing`). With two or more workers a connected
  client can lose a reply, without sending anything further, if and only if more
  than 1024 of its requests are unanswered (`LossIff`); `LossReachable` gives
  such a run.
* A departure, by a disconnect or by destroy_canvas, wakes the waiting users of a
  canvas without checking whether the barrier is now complete, so they can be left
  waiting for nobody: a step does that to a canvas if and only if it is a departure
  of a user without whom somebody waits and everybody connected waits
  (`StrandedIff`, `DepartureStrandsIff`); `StrandedRun` is such a run.
* A barrier call keeps its worker thread until it returns, so a release never frees
  more users than there are workers (`ReleaseFreesAtMost`), and with one worker no
  two users ever meet (`OneWorkerMeetsNobody`). Exactly: in any reachable state a
  canvas can be released without a departure if and only if it still exists, some
  worker is not kept by a barrier, and the canvas is in no jam, a set of canvases
  each missing more users than there are workers not kept at the set
  (`ReleasableIff`; with a single canvas keeping workers, `ReleasableHereIff`).
* When every worker is kept by a barrier no request of any kind is served any more
  (`WedgedForGood`, `MeetingWedges`). That is the exact condition: without a close
  the store can still change if and only if some worker is not kept (`WedgedIff`).
  Closing the client of a user whose call keeps a worker frees that worker
  (`CloseUnwedges`).
* A client whose pipe has failed is marked disconnected, after which closing it
  does nothing: a client can still leave the pool's list if and only if that has
  not happened to it (`RemovableIff`); `FailedWriterRun` is a run where it has.
* A user is taken off its canvases by its own requests and when a client logged in
  as it is closed. So a user can stay connected for good, and where it is not
  waiting no barrier is released again (`AbandonedForGood`). Unless somebody logs
  in under its name, it can still be taken off if and only if some client logged in
  as it is still connected (`TakenOffIff`, `AbandonedIff`). That fails after a
  broken pipe (`BrokenRun`), and also without one: a second successful Login under
  another name leaves nobody behind the first user (`SecondLoginRun`).
* A malformed Login is refused with "-1", which the client takes for a balance of
  -1, and a refused Login leaves the server's login flag as it was. So client and
  server agree on the login exactly if the Login was malformed and the server had
  the client logged in, or it was welcome, or it was rejected and the server had
  not (`LoginAgreesIff`; `NamelessLoginMisread` and `SecondLoginMisread` are cases
  where they differ).
* The three replies "0", "0 0" and "0 0 0" all show as "Success"; no other two
  replies look alike (`DisplaysDiffer`). In particular a value of 0 is shown
  without the value.
* Requests refuse numbers with a minus, but only where it is the first character:
  a vertical tab or form feed, at which tokens are not cut, hides it, and the number
  counts down from 2^64 (`U64Tokens` says which strings are taken for which
  numbers; `MinusBehindSpace`).

Where a comment and the code disagree the model follows the code: rpc.c:57
announces a "0 " prefix for signed replies, the code prints the bare number.

## Model

| member | source | states |
|---|---|---|
| Schedule.DequeueOrder | threadpool.c:156-186 | a dequeue yields a request iff one is pending; it is the oldest request of the first non-empty queue in circular order from next_client, and that queue becomes the last in service order |
| Schedule.ScanIsFirstBusy | threadpool.c:161-183 | the circular do-while scan finds the first queue with work in the rotated list, within one lap |
| Schedule.PendingMeansBusy | threadpool.c:156-183 | with a positive pending count some queue has work, so the scan cannot fail |
| Schedule.RemoveOrder | threadpool.c:137-153 | unlinking any queue, next_client's or not, keeps the cyclic service order of the others |
| Schedule.RegisterOrder | threadpool.c:311-320 | a new queue enters the service order at one place; the others keep theirs |
| Schedule.EnqueueInv | threadpool.c:395-403 | submitting keeps clients distinct, next_client in range and pending equal to the sum of the queue lengths |
| Schedule.RemoveInv | threadpool.c:327-352 | removing a client keeps that invariant and lowers pending by exactly the requests dropped |
| Schedule.DequeueInv | threadpool.c:161-180 | dequeuing keeps that invariant |
| Fairness.StepDistance | threadpool.c:161-183 | a backlogged client's circular distance from next_client falls on each dequeue that serves another, never grows on a removal, grows by at most one on a registration, stays on a submission |
| Fairness.DistanceBudget | threadpool.c:156-186 | over any run, dequeues plus remaining distance of an unserved client are at most its distance plus the newcomers |
| Fairness.ServedInTime | threadpool.c:156-186 | bounded fairness: a backlogged client that is not removed is served before the dequeues outnumber its distance plus the newcomers, with n queues and no newcomers within n dequeues |
| Fairness.NotServedTwice | threadpool.c:156-186 | while a client waits no other is served twice, and one behind it is not served at all |
| Fairness.TakeItems | threadpool.c:161-180 | a dequeue takes the head of the served client's queue and touches no other queue |
| WorkerPool.ClientQueue.Append | threadpool.c:396-402 | hanging a node on the tail appends exactly that request to the queue's chain of nodes |
| WorkerPool.ClientQueue.PopHead | threadpool.c:167-174 | taking the head node yields the oldest request and leaves the others in order; the tail is cleared with the last |
| WorkerPool.Pool.NextClientIsMember | threadpool.c:137-153 | prev and next mirror each other, next_client is null iff the list is empty and otherwise a member |
| WorkerPool.Pool.FindClientQueue | threadpool.c:125-135 | the list walk returns the client's queue, null iff the client is not registered |
| WorkerPool.Pool.Register | threadpool.c:303-321 | registering on the linked list is Schedule.Register, refused iff already registered |
| WorkerPool.Pool.Submit | threadpool.c:378-406 | submitting is Schedule.Enqueue with the next sequence number, refused iff shutting down, unregistered or disconnected; the counter moves only on success |
| WorkerPool.Pool.Unlink | threadpool.c:137-153 | unlinking the i-th queue keeps the list linked and moves next_client to the successor, or the head, iff it pointed there |
| WorkerPool.Pool.RemoveClient | threadpool.c:327-352 | removing a client is Schedule.Remove, one pending request less per node freed |
| WorkerPool.Pool.DequeueFair | threadpool.c:156-186 | the scan over the linked list is Schedule.Dequeue |
| ReplyRing.SendAllWrites | threadpool.c:56-74 | however writes are split or interrupted, write_all adds all of the text, or on failure a proper prefix |
| ReplyRing.SendAllIff | threadpool.c:56-74 | write_all succeeds iff no write fails or takes nothing before all of the text is out |
| ReplyRing.DrainMoves | threadpool.c:102-119 | the sending loop takes exactly the maximal run of consecutive replies, on a failed write one more |
| ReplyRing.ReorderBuffer | threadpool.c:77-122 | after any deliveries in any order, responses_sent of a connected client is the least number never taken, the buffered numbers are exactly the taken ones above it within the window, and the bytes written are those replies in order |
| ReplyRing.MissingStalls | threadpool.c:90-96 | a number that is neither buffered nor offered again stops the stream there |
| ReplyRing.RingTakes | threadpool.c:84-100 | the ring of a connected client takes exactly the numbers from the next one due to 1023 ahead of it that it does not hold; any other delivery changes nothing |
| ReplyRing.OverflowStalls | threadpool.c:90-96 | reply 1024 arriving first is thrown away and never sent; 1023 is kept |
| ReplyRing.SlotsApart | threadpool.c:80-92 | of 1024 consecutive numbers no two have the same slot |
| ReplyRing.ClientState.SlotTakenOnlyBySame | threadpool.c:90-96 | for a number k in the window slot k % 1024 is ready iff k itself is buffered, and then holds its reply |
| ReplyRing.WriteAll | threadpool.c:56-74 | the write loop, of the server and of the client, is SendAll |
| ReplyRing.ClientState.SendDue | threadpool.c:102-119 | one turn of the sending loop is one step of Drain |
| ReplyRing.ClientState.SendOrdered | threadpool.c:77-122 | the array ring is the map ring: one call is Deliver |
| PoolInvariant.StepKeeps | threadpool.c:77-424 | every step of every thread keeps the system invariant |
| PoolTheorems.NoLostWakeup | threadpool.c:193-208 | in every reachable state, while a worker sleeps the pool is not shutting down and pending is at most the number of awake idle workers |
| PoolTheorems.PendingWorkIsFound | threadpool.c:193-208 | a worker that sees pending work under the lock always gets a request |
| PoolTheorems.SubmissionAccepted | threadpool.c:378-406 | in every reachable state a line is accepted iff its client is connected and not removed and the pool not shutting down; then it gets the next number and joins the end of its queue, otherwise nothing changes |
| PoolTheorems.Conservation | threadpool.c:327-403 | each issued number of a client is in exactly one of queued, in flight, buffered, sent, removed, discarded, and no other number is anywhere |
| PoolTheorems.CallsInOrder | threadpool.c:156-186 | a client's requests reach the handler in increasing order, each once at most |
| PoolTheorems.ReplyOrder | threadpool.c:77-122 | in every interleaving the bytes written to a client are a byte-prefix of its replies in request order, and while it is connected exactly the first responses_sent of them |
| PoolTheorems.RepliesAnswerLines | threadpool.c:210-218 | reply k is what the handler returned for the k-th accepted line of that client, "-1" standing in for no answer, and never changes |
| PoolTheorems.RepliesWereGiven | threadpool.c:210-218 | in every run each reply in a client's table was returned by the handler, at some event of the run, for the line accepted under that number |
| PoolTheorems.WrittenOnlyGrows | threadpool.c:102-119 | a step only appends to a client's output |
| PoolTheorems.FailedWriterStaysListed | server_main.c:74-81 | a client disconnected by a failed write stays registered in every later state |
| PoolTheorems.ClosedForGood | server_main.c:79-81 | in every run after close_client has marked a client, nothing is written to it or accepted from it; once it is removed it never comes back and no request of it is handled |
| PoolTheorems.RemovableIff | server_main.c:74-81 | some run takes a client out of the list iff it is not an open client that a failed write has disconnected |
| PoolTheorems.FailedWriterRun | threadpool.c:110-115 | a concrete run ends with such a client |
| PoolTheorems.RefusedIffPastWindow | threadpool.c:84-96 | a reply to a connected client is refused iff it is 1024 or more ahead of the next one due |
| PoolTheorems.AllSentIffNoneDiscarded | threadpool.c:90-119 | once a connected client's requests are worked off, all replies are out and the ring is empty iff none was discarded |
| PoolTheorems.PacedClientLosesNothing | threadpool.c:90-119 | if every submission happens with fewer than 1024 unanswered, nothing is discarded and in the end exactly all replies have been written |
| Overrun.OneWorkerLosesNothing | threadpool.c:84-119 | with one worker a connected client has nothing buffered and nothing discarded in any reachable state, however many requests are unanswered |
| Overrun.OverrunLoses | threadpool.c:90-96 | with two workers, more than 1024 unanswered requests of a connected client lead to a discarded reply in some run without further submissions |
| Overrun.LossIff | threadpool.c:84-119 | with two workers or more, a connected client that has lost nothing can lose a reply without submitting more iff more than 1024 of its requests are unanswered |
| Overrun.LossReachable | threadpool.c:90-96 | for every pool of two workers or more, a run from the start that discards a reply of a connected client |
| PoolTheorems.RunProjects | threadpool.c:156-403 | every run of the system is a run of the schedule, with calls counted as services |
| PoolTheorems.PoolIsFair | threadpool.c:156-186 | bounded fairness in every reachable state of the threaded system |
| PoolTheorems.PoolServesNoOneTwice | threadpool.c:156-186 | while a client waits no other known client gets two requests handed out |
| PoolTheorems.ShutdownIsFinal | threadpool.c:412-424 | in every run after shutdown begins nobody sleeps and no line is accepted any more |
| PoolTheorems.DrainFinishes | threadpool.c:192-218 | from any moment of a shutdown the workers' own steps can bring all of them to their exit |
| PoolTheorems.ShutdownStep | threadpool.c:192-218 | during shutdown every worker step that does something lowers 3 * pending + worker weights, nothing raises it |
| PoolTheorems.DrainIsBounded | threadpool.c:412-424 | after shutdown begins any run has only so many worker steps |
| PoolTheorems.DrainNeverStuck | threadpool.c:192-218 | while a worker lives it has a step that makes progress |
| PoolTheorems.DrainIsComplete | threadpool.c:412-424 | when all workers have exited every queue is empty and each accepted request was called exactly once or removed with its client |
| Store.DisconnectKeeps | handles.c:417-433 | a disconnect keeps the store invariant and destroys no canvas |
| Store.DestroyKeeps | handles.c:363-382 | destroying for a user keeps the store invariant |
| Store.BarrierKeeps | handles.c:337-361 | a barrier call keeps the store invariant |
| Store.ShareKeeps | handles.c:316-335 | sharing keeps usernames on a canvas distinct and the rest of the store invariant |
| Store.GetKeeps | handles.c:242-258 | looking a canvas up, which connects the user, keeps the store invariant |
| Store.AddCanvasKeeps | handles.c:160-190 | a new canvas gets a fresh id and keeps the store invariant |
| Store.CanvasIdsFall | handles.c:160-190 | canvas ids are positive, below next_id and strictly decreasing along the list |
| Store.ScanIsLookup | handles.c:242-258 | the first-match scan, which skips unusable records, equals lookup by id followed by one check |
| Store.IdNamesOneRecord | handles.c:160-288 | an id names at most one record over canvases, sprites and placements; the sprite and placement scans find a usable record iff there is one |
| Store.AddedCanvasFound | handles.c:160-258 | a new canvas is found under the id handed out, by its creator only; no other lookup changes |
| Store.AddedRecordFound | handles.c:192-288 | a new sprite or placement is found under its id by its owner only; a placement keeps the canvas and sprite ids it was made with |
| Store.DestroyedIsGone | handles.c:384-415 | a destroyed sprite or placement is found by nobody, every other lookup stays, and a refused or impossible destruction changes nothing |
| HandleStore.CanvasRecord.FindSharedUser | handles.c:58-66 | the walk returns the position of the user, or the end |
| HandleStore.CanvasRecord.BarrierComplete | handles.c:79-86 | true iff every connected user is waiting |
| HandleStore.CanvasRecord.EnterBarrier | handles.c:345-356 | raising the flag and releasing if complete is Store.EnterBarrier |
| HandleStore.HandleStore.AddCanvas | handles.c:160-190 | pushes a record in front, as Store.AddCanvas |
| HandleStore.HandleStore.AddSprite | handles.c:192-213 | pushes a record in front, as Store.AddSprite |
| HandleStore.HandleStore.AddPlacement | handles.c:215-240 | pushes a record in front, as Store.AddPlacement |
| HandleStore.HandleStore.GetCanvas | handles.c:242-258 | the scan of the heap records is Store.GetCanvas |
| HandleStore.HandleStore.GetSprite | handles.c:260-273 | the scan returns the record Store.SpriteFor names |
| HandleStore.HandleStore.GetPlacement | handles.c:275-288 | the scan returns the record Store.PlacementFor names |
| HandleStore.HandleStore.Barrier | rpc.c:575-579 | lookup and barrier call up to blocking are Store.Barrier |
| HandleStore.HandleStore.Share | rpc.c:562-566 | lookup and share are Store.Share |
| HandleStore.HandleStore.DestroyCanvasForUser | handles.c:363-382 | is Store.DestroyForUser, with the same canvases destroyed |
| HandleStore.HandleStore.DisconnectUser | handles.c:417-433 | the loop over all records is Store.DisconnectUser |
| HandleStore.HandleStore.DestroySprite | handles.c:384-400 | is Store.DestroySprite, including the library's refusal |
| HandleStore.HandleStore.DestroyPlacement | handles.c:402-415 | is Store.DestroyPlacement |
| BarrierSystem.StepTable | rpc.c:482-581 | every request changes the table of canvases as its composed store operations say |
| BarrierInvariant.StepKeeps | rpc.c:462-581 | every critical section of every thread keeps the system invariant |
| BarrierInvariant.FlagMoves | handles.c:337-382 | a waiting flag comes down only by a release or the user's departure, and goes up only in the user's own barrier call |
| BarrierInvariant.NamesStep | handles.c:316-335 | no step takes a name off an access list, only a share by a user on it adds one |
| BarrierTheorems.BlockedCallReturnsOnlyWhenFreed | handles.c:349-361 | a blocked barrier call returns only if since it began every connected user was waiting at some moment, or its user departed |
| BarrierTheorems.ReleaseFreesExactlyConnected | handles.c:350-354 | a release frees exactly the connected users, leaves nobody waiting and wakes every thread blocked on the canvas |
| BarrierTheorems.SecondReleaseNeedsFreshCalls | handles.c:345-356 | between two releases every user freed by the second made a fresh barrier call |
| BarrierTheorems.SleepersAreWaiting | handles.c:357-359 | a thread asleep on a canvas's condition variable has its flag up, so no broadcast is missed |
| BarrierTheorems.GatedCallsAreFree | rpc.c:492-550 | when a gated request calls the animation library its user is not waiting at that canvas, even if the lookup failed and the wait was skipped |
| BarrierTheorems.DeletedMeansDestroyedOnce | handles.c:88-93 | a record is deleted iff its canvas is gone, nobody is connected to or waiting on it, each canvas is destroyed once at most |
| BarrierTheorems.DeletedForGood | handles.c:363-382 | deletion is permanent and access lists never shrink |
| BarrierTheorems.OnlyLastUserDestroys | handles.c:371-379 | a canvas is destroyed only by its last connected user's destroy request |
| BarrierTheorems.BarrierCallUnsticks | handles.c:349-356 | right after a barrier call a waiting user has a connected user who is not, from any state |
| BarrierTheorems.NoDeparturesNoneStuck | handles.c:337-361 | in a run without departures, whenever a user waits some connected user does not |
| BarrierTheorems.DepartureStrandsIff | handles.c:371-380 | leaving a canvas, by disconnect or destroy_canvas, leaves users waiting for nobody iff somebody else waits and all others connected wait |
| BarrierTheorems.StrandedIff | handles.c:363-433 | a step turns a canvas whose barrier is open into one whose users wait for nobody iff it is a departure meeting that condition |
| BarrierTheorems.StrandedRun | handles.c:424-429 | a concrete run that does |
| BarrierTheorems.EldestCreated | handles.c:176-188 | the oldest name on a canvas's access list is, in every run, that of the user whose request created it |
| BarrierTheorems.AccessComesFromShares | rpc.c:562-566 | every user on a canvas is linked by a chain of shares to the user who created it |
| BarrierTheorems.SharersHaveAccess | rpc.c:563-565 | a share is made only by a user who could use the canvas at that moment |
| Requests.EnabledIff | rpc.c:315-322 | which events can happen: requests of valid users on idle workers, and the later parts of a request on the worker that is at it |
| Requests.StatusStep | handles.c:242-433 | exactly when a step adds a user to a canvas, connects it, disconnects it, raises or lowers its waiting flag, and destroys the canvas |
| Requests.NewCanvasStep | handles.c:160-190 | a canvas appears exactly when a user creates it, with that user alone on it |
| Requests.SpriteStep | handles.c:192-400 | a user has a sprite exactly from its create_sprite to its destroy_sprite, if the library does not refuse |
| Requests.PlacementStep | handles.c:215-415 | a user has a placement, on the canvas it was made on, exactly from when it is recorded to its destroy_placement |
| Requests.AskedCall | rpc.c:482-516 | place_sprite, a move of a placement and generate, on what their user has, call the library at once iff the user is not waiting at the canvas, and otherwise block |
| Requests.ResumedCall | handles.c:307-314 | a request blocked so calls the library, when it runs again, iff its user no longer waits |
| Requests.BarrierCall | handles.c:337-361 | a barrier call returns at once iff everybody else connected waits, which rouses all who are blocked on the canvas, and otherwise blocks |
| Requests.BarrierReturn | handles.c:357-359 | a blocked barrier call returns, when it runs again, iff its user no longer waits |
| Requests.ThreadStep | handles.c:363-433 | a departure rouses exactly those blocked on canvases that are left; frames, the end of drawing and recording end their request as they should, nothing else moves a worker |
| Requests.CallsWereAsked | rpc.c:482-550 | in every run each logged library call was asked for by a request on that canvas, of that user and about that sprite or placement, whose worker stayed at it until the call, made while the user was not waiting there |
| Requests.PlacementsWerePlaced | rpc.c:482-502 | in every run each placement record carries the canvas and sprite of a place_sprite request of its owner that passed the barrier of that canvas, and the id given out for it |
| Requests.MovesRespectPlaces | rpc.c:505-516 | in every run each logged move of a placement found its user not waiting at the canvas named in the place_sprite request that made the placement |
| Requests.PlacementsConserved | rpc.c:497-502 | in every run the calls that placed a sprite on a canvas for a user are as many as its placement records, those still to be recorded and those the library refused |
| Meeting.HeldStep | handles.c:345-360 | every raised barrier flag keeps a worker inside the barrier call that raised it |
| Meeting.ReleaseFreesAtMost | handles.c:349-356 | in every run of n workers a release frees at most n users, the caller among them |
| Meeting.OneWorkerMeetsNobody | handles.c:349-356 | with a single worker every releasing call finds its caller as the only connected user |
| Meeting.MissingCallsRelease | handles.c:345-356 | if the missing users all call, each on an idle worker of its own, the last call releases |
| Meeting.JammedForGood | handles.c:357-359 | where more users are missing than workers are left, nobody is released and no worker kept there returns in any run without departures |
| Meeting.ReleasableHereIff | handles.c:345-360 | with all workers idle or kept at a canvas, some run without departures releases it iff it exists, a worker is idle, and as many are idle as users are missing |
| Meeting.ReleasableIff | handles.c:345-360 | in every reachable state some run without departures releases a canvas iff it exists, some worker is not kept, and no set of canvases with this one has each missing more users than there are workers not kept at the set |
| Meeting.WedgedForGood | threadpool.c:210 | once every worker is kept by a barrier, no request, a departure neither, is served until the main thread closes a client |
| Meeting.WedgedIff | threadpool.c:210 | from any state, unless the main thread closes a client, the store can still change iff some worker is not kept by a barrier |
| Meeting.CloseUnwedges | server_main.c:74-81 | in every reachable state closing the client of a user whose call keeps a worker frees that worker |
| Meeting.MeetingWedges | handles.c:357-359 | a concrete meeting of two users on one worker that ends so |
| Server.HandlersHaveWorkers | threadpool.c:210 | in every run a handler in the middle of a request has its worker busy |
| Server.UserIsLastLogin | rpc.c:353-387 | in every run a client is logged in as the user of its last successful Login, if it has not logged out or been closed since, and otherwise as nobody |
| Server.RequestsActAsLastLogin | rpc.c:317-322 | in every run an event begins on a worker iff it is one of the user of the last Login of the client the worker serves |
| Server.LogoutIsFinal | rpc.c:595-606 | after a Disconnect request or a close, in every run without another Login by that client, it begins nothing on the canvases and closing it does nothing to them |
| Server.CloseIsFinal | server_main.c:74-81 | closing a client that was closed does nothing, in every run |
| Server.AbandonedForGood | server_main.c:74-81 | a user all of whose clients are cut off, or who has none, stays connected in every run without a login under its name, and a barrier it is not waiting at is never released again |
| Server.TakenOffIff | server_main.c:74-81 | in some run without a login under its name a user is taken off a canvas it is not waiting at iff a client logged in as it is not marked disconnected |
| Server.AbandonedIff | server_main.c:74-81 | the same for a user with a single client: iff that client is not marked disconnected |
| Server.BrokenRun | server_main.c:74-81 | a concrete run, from the start through login and create_canvas, that ends with a user whose only client is cut off |
| Server.SecondLoginRun | rpc.c:373-377 | a concrete run in which a connected client's second login leaves its first user on a canvas for good |
| Framing.FeedAppend | server_main.c:182-202 | feeding two pieces one after the other is feeding them joined |
| Framing.ChunkingIsImmaterial | server_main.c:223-233 | any splitting of the same bytes gives the same lines and leftover |
| Framing.FeedConserves | server_main.c:182-202 | lines plus leftover are the input, lines end at a newline or at 4096 bytes, the leftover has no newline and is shorter than the buffer |
| Framing.FeedCount | server_main.c:182-202 | each framed line takes a newline or 4096 bytes of the input |
| Framing.LinesFramedOneByOne | server_main.c:182-190 | newline-terminated lines that fit are framed as they were sent |
| Framing.LineReader.Compact | server_main.c:192-196 | the overlapping move brings the unfinished bytes to the front |
| Framing.LineReader.ProcessBufferedLines | server_main.c:182-202 | the scan, the move and the forced flush do what the byte-at-a-time framer does |
| Framing.LineReader.ReadRequests | server_main.c:223-233 | for every choice of read sizes the submitted lines and the buffer are those of the byte-at-a-time framer, and read always has room |
| Text.U64RoundTrip | rpc.c:98-112 | parse_u64 of a printed number gives it back if it fits 64 bits, else fails |
| Text.LongRoundTrip | client_main.c:154-168 | strtol of a printed integer gives it back if it fits a long, else fails |
| Text.TokensOfJoin | rpc.c:81-95 | words joined by blanks come back as tokens |
| Text.Tokenize | rpc.c:81-95 | the strtok loop yields all tokens, and reports overflow iff there are more than fit |
| Wire.FormatIsOneLine | rpc.c:33-79 | every reply is one line with its newline at the end only, short enough for the client's buffer |
| Wire.FormatIsWords | rpc.c:33-79 | no format buffer ever cuts a reply short |
| Wire.DisplayRecovers | client_main.c:171-214 | the client shows the meaning of every status code, generate result and 64-bit value |
| Wire.RepliesRead | client_main.c:171-214 | the bytes of each status code, value, balance, generate result and rejection, and the text read for them |
| Wire.DisplaysDiffer | client_main.c:171-214 | two replies look alike iff they are equal or both are plain success |
| Wire.RequestRoundTrip | rpc.c:81-95 | the words of a request line are the server's tokens |
| Wire.U64Tokens | rpc.c:98-112 | a string is taken for a number iff it is white space, at most one sign and decimal digits that fit 64 bits and does not start with a minus, and then for that number, or 2^64 less it after a minus |
| Wire.MinusBehindSpace | rpc.c:81-112 | a concrete token with a minus that the server takes for a number |
| Wire.LoginRead | client_main.c:292-317 | what the client makes of each possible answer to a Login |
| Wire.ReadLoginIs | client_main.c:296-317 | an answer to a Login is a rejection iff it starts with "Reject", and any other number of a long's range is taken for a balance |
| Wire.LoginAnswered | rpc.c:353-379 | which answer a Login gets, by its name, the user table and the balance, and that only a welcome logs in |
| Wire.LoginAgreesIff | rpc.c:353-379 | when client and server agree on the login after a Login, for every login flag on either side; a refusal leaves the server's flag, a welcome sets it and its balance arrives as sent |
| Wire.NamelessLoginMisread | rpc.c:355-358 | a first Login without a name is taken for logged in |
| Wire.SecondLoginMisread | rpc.c:360-366 | a second Login by an unknown user makes the client leave while the server keeps it logged in |
| Client.FirstTokenIs | client_main.c:112-128 | the command of a line is what stands after blanks up to the next delimiter, if shorter than 64 bytes |
| Client.SplitOfFlatten | client_main.c:65-89 | reading line by line gives back exactly the replies written, then what is left of a cut one, unless the pipe breaks there |
| Client.Lockstep | client_main.c:241-322 | the k-th reply line is the answer to the k-th request line; before a successful login only Login and Disconnect are sent |
| Client.RequestShown | client_main.c:278-320 | a request line goes out, its reply comes in, and the user is shown the reply's meaning |
| Client.LoginRoundTrip | client_main.c:292-312 | a login carries the name to the server and the balance to the user |
| Client.DisconnectSentOnceAndLast | client_main.c:281-329 | a Disconnect is sent once and last, unless the login was rejected or a write failed |
| Client.SentIsFramed | client_main.c:244-261 | whatever is typed, the server frames the lines the client sent as sent, and nothing else unless a write of the client failed, then at most two lines more |
| Client.DisplayResponse | client_main.c:171-214 | the in-place stripping, trimming and comparing is Display |
| Client.ReadFirstToken | client_main.c:112-128 | the copying loop is FirstToken, none for a token that does not fit |
| Client.ReplyCopy.StripNewline | client_main.c:91-96 | takes the newlines and returns off the end, in place |
| Client.ReplyCopy.TrimWhitespace | client_main.c:98-109 | trims both ends and nothing else |
| Client.Client.ReadResponseLine | client_main.c:65-89 | the byte loop takes exactly the next line, and fails at the end of the pipe or at a failing read |
| Client.Client.Run | client_main.c:241-329 | the byte-level main loop, with failing writes and reads, is Play on whole lines |
| Typed.TypedLinesAre | client_main.c:241-261 | the typed lines are the input cut after its newlines, a newline added to an unterminated last one |
| Typed.InputTakesLine | client_main.c:241-265 | one turn of the loop takes exactly one typed line; one of more than 4095 bytes is skipped whole with "Value error" |
| Typed.StoryUnique | client_main.c:241-322 | what must become of the typed lines, given replies and writes, is determined |
| Typed.SessionIsTyped | client_main.c:241-322 | a session sends, in order and unchanged, exactly the typed lines that fit, have a command and are permitted, up to the one that ends it; overlong ones show "Value error", refused ones "Not logged in", answered ones the text of their reply |
| Typed.FarewellIsTyped | client_main.c:241-329 | what has been sent, written, exchanged and shown in the end: a Disconnect follows the typed lines unless a typed one or a rejected login came before |
| Generate.GenerateFrames | rpc.c:280-300 | frames start, start + 1, ... up to the first that fails or the end, without wrapping at the last counter value |
| Generate.HandleGenerate | rpc.c:231-313 | from the tokens on, when the user reads each of the six texts: "Value error" iff an argument is bad, the canvas is missing, or the first frame that does not go has no canvas; "Data write failed" iff the file does not open, that frame is not written, or closing fails; and so on |
| EndToEnd.AcceptedArePrefix | threadpool.c:378-395 | the accepted lines of a client are the first ones offered, without a gap |
| EndToEnd.ReadBack | client_main.c:65-89 | reading a client's output line by line gives its replies in order and at most one more that a failed write cut short |
| EndToEnd.EndToEnd | client_main.c:278-320 | in every interleaving and for every splitting and failure of reads and writes, the k-th reply the client takes is the handler's reply to the k-th accepted request, which is the k-th line it sent |
| EndToEnd.ClientIsPaced | client_main.c:278-289 | a client that waits for each reply before its next line has at most three requests unanswered when one more is accepted, however its reads and writes go |
| EndToEnd.ClientLosesNothing | client_main.c:278-289 | so no reply of the animate client is discarded while it is connected, and in the end it has been written exactly its replies in order |

## Left out

- Operating-system plumbing: signals, FIFO creation and opening, `select`, process handling, argument parsing.
- The animate library and ffmpeg are foreign code; their calls are events or arguments. Sizes, colours and positions of canvases and sprites are not kept.
- What handlers compute is not part of the pool model: a handler's answer is part of its event. The handle store is modelled on its own; a blocked handler is a worker that takes no step.
- Allocation failures, mutex and condition variable failures, freeing of memory, debug output.
- Reading errors and end of file on the request pipe lead to `close_client`, which the pool model takes as an event at any time; idle-time disconnects likewise.
- Unlocked reads and writes of `disconnected` and `username` are single steps; there is no memory-model reasoning. A request goes on as the user it began with, even if another request of its client logs in meanwhile.
- Text holds no zero bytes, where C strings would end.
- Interrupted reads of the client are repeated and leave no trace; they are not shown.
- The handlers of `Server` are the canvas operations they make; which request line asks for which is not part of it.
- AbandonedForGood: says nothing about runs in which somebody logs in under the user's name, and so can move that user itself; TakenOffIff and AbandonedIff likewise.
- TakenOffIff: supposes a disconnected client of the user has no request queued or in flight, and a connected one is not in the middle of being closed.
- `worker_main` and the condition-variable loops are steps of `PoolSystem` and `BarrierSystem`, not methods.
- The shared users of a canvas are a sequence of values in the record, not a linked list of nodes.
- Placements may refer to canvases or sprites already destroyed; the code does not prevent it and nothing is claimed about it.
- The user table is read from a file once; the model starts from the finished table.
- The order in which handlers of one client run is not first-in first-out in the code; only the order of dequeues and of replies is.
- BlockedCallReturnsOnlyWhenFreed: says nothing about when a released caller returns; a caller whose flag is raised again before it runs goes on waiting, as in the code.
- EndToEnd: a session whose replies have run out counts as over, where the real client blocks until more arrive; the exchanges up to there are the same.
