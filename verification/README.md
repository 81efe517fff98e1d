# OKX connector: verified model

This project models the parts of the OKX connector that hold its hard logic and proves what they
promise. Check it with `dafny verify dfyconfig.toml` (Dafny 4.11).

## How it is built

**The private order stream** is a state machine over session generations. `SessionSpec` gives one
session as a value and each io-thread callback as a function on it: the resolve, connect, TLS, WebSocket
handshake, login, write and read chain, the ping timer with its outstanding waits, the pong age, the
queued and acknowledged subscriptions, and a record of what went over the wire. An outstanding operation
remembers whether the transport was open when it was started. `SessionProofs` proves the invariant;
`SessionRuns` and `SessionTheorems` prove the queue, login and health theorems over all runs of a public
or private session, `SessionAcks` and `SessionChain` what acknowledgements do and in which order operations
complete, and `SessionRelease` that a dead session is let go. `WsSession` is the session object
with its fields and callbacks, proved against those functions. `OrderStreamSpec` puts all generations, the
clock, the login flag and the submit guard together. `OrderStreamProofs` proves safety, healing and the
zombie bound over all its runs, `OrderStreamGuard` what client and guard decide in times and messages
alone, `OrderStreamLives` that each generation lives a session run of its own,
`OrderStreamRelease` that a dead generation is replaced within a minute; `OrderStreamExample` gives concrete
runs on which promises fail, and `OrderStream` holds the client, the private stream and the guard as objects.

**The REST client**: `RateLimiter` (the sliding window), `PagingSpec` and `Pagination` (downloads from a
history that grows between requests; the endpoint is "the newest n records strictly between `before` and
`after`, newest first", with any n of at least 1 at each request).

**The execution gateway**: `Crediting`, `OrderEvents`, `OrderRows` and `FillAccounting` (order rows, fills and
what they add up to), `InstrumentIndex`, `OrderSizing`, `OrderIds`, and `OrderRoundTrip` from submit to fill.

**The archives**: `ZipExtraction`, `CsvText`, `CsvParsing`, `CsvInfluence`, `CsvInstruments`. **Texts**: `DecimalText`, `Numerals`,
`SubscriptionCodec`, `SubscriptionText`, `Text`. `FirstByKey` is the rule shared by fill crediting and both
parsers. `Counterexamples` collects small real inputs on which a promise fails.

## Where the code does not keep its promise

For each of these the lemmas named first give the exact condition, or the bound within which the promise
still holds, and those named last a concrete input on which it fails.

- The session header says a private session subscribes only after the login is acknowledged. The code
  flushes after any inbound message (`AckBeforeSubscribe`, on all runs `LoginOrderOnRuns`; `EarlySubscription`).
- The login flag is not tagged by session and follows log texts, so a superseded session or a text that
  quotes the words can set it (`HonestExactly`, `OrdersCoveredExactly`; `LateAckOpensGuard`,
  `UncoveredOrder`). `FailClosed` assumes that this does not happen.
- The guard does not see that a session can no longer read until 60 s have passed (`BlindAtMostAMinute`;
  `OrderOnDeadSession`).
- The two guards against -1 in the paging requests are swapped: start -1 removes the upper bound and the
  download never ends (`EndsUnlessOpenStart`; `EndlessDownload`).
- The writer's pages and the returned candles differ when an older candle of the range is still forming
  and starts a page (`WriterAgrees`; `FormingOnSecondPage`).
- Trade ids are remembered without their instrument (`CreditedPerTrade`; `SharedTradeId`).
- The X-Perp preference compares the family of one instrument with the id of the other (`PreferenceExact`;
  `DisputedCatalogue`).
- A client order id with a Z does not come back (`RoundTrip`; `LostId`), and a symbol that is the empty
  string is taken for a foreign row (`FillComesBack`; `EmptySymbol`).
- The first line of a CSV file without a header is lost unless it starts with a digit (`FirstLineKept`;
  `HeaderlessFile`).
- A CSV row whose time cannot be read is not dropped but counts as one of time 0, and hides later ones
  (`LineInfluences`, `UnreadableCandleKept`, `UnreadableFundingKept`; `UnreadableTimes`).

Two things are no broken promise but may surprise: a failed login is never retried on a session that stays
alive (`FailedLoginSticks`), and the first tick is due 20 s after the session was created, not after its
handshake (`FirstTick`); the zombie bound is proved with that.

## Assumptions

Callbacks are atomic steps, in any order that asio allows; `subscribe()` and the handling of one order row
are atomic. The wall clock is positive and does not run backwards. `ZombieBound` and `HardCloseWindow`
assume that no time passes while a tick is due. `FailedLoginSticks` assumes that the venue answers a login
at most once. `FillsCoverUpdates` assumes that the venue's accumulated size is the running sum of its
trades and that no trade is skipped. Decimals and doubles are exact reals, or whole numbers of 1e-12 in
`DecimalText`; reading a decimal and the text of one are parameters.

## Model

| member | source | states |
|---|---|---|
| `SessionProofs.ApplyInv` | src/okx_ws_session.cpp:153-364 | every callback of the io thread keeps the whole session invariant: one operation and one timer wait at most, the queue, the shape of the wire, the login flag, the clocks and the reasons for which the timer can have ended |
| `SessionProofs.StartInv` | src/okx_ws_session.cpp:396-411 | a started session satisfies that invariant |
| `SessionProofs.EnqueueInv` | src/okx_ws_session.cpp:74-90 | so does one that accepted another request at any moment |
| `SessionRuns.RunInv` | src/okx_ws_session.cpp:153-411 | so does every state of every run of a session, public or private, made of callbacks, new requests and requests to close in any order |
| `SessionRuns.ReadDoneFacts` | src/okx_ws_session.cpp:245-299 | the whole effect of one handled message on queue, wire, outstanding operation and close requests |
| `SessionRuns.FlushStep` | src/okx_ws_session.cpp:92-107 | each handled message, and a handshake that does not log in, writes the oldest queued request; nothing else writes or drops one |
| `SessionRuns.FlushedInOrder` | src/okx_ws_session.cpp:281-294 | from any state of any run to any later one, whatever ticks, pongs, failures and new requests come between: what was queued or accepted since went out in order, one request per moment to flush that found one, the rest is queued; of the requests queued at the start min(moments, queued) went out |
| `SessionTheorems.FlushesAreMessages` | src/okx_ws_session.cpp:223-232 | on a private session always, and on a public one after its handshake, those moments are exactly the messages handled without a parse failure |
| `SessionTheorems.FramesOnLives` | src/okx_ws_session.cpp:211-233 | on every run of either kind: a private session writes the login first and no other, signed at the connection time; a public one never; all other frames are single subscribes, each but the first directly after an inbound message, and none is empty |
| `SessionTheorems.SignedAtHandshake` | src/okx_ws_session.cpp:223-227 | that connection time is the time of the handshake on that run, before which nothing had been written |
| `SessionTheorems.QueueOnLives` | src/okx_ws_session.cpp:74-107 | on every run of either kind: one operation and one wait at most, and accepted requests are those written followed by those queued, with nothing queued twice |
| `SessionTheorems.ClosedExactly` | src/okx_ws_session.cpp:318-322 | on every run a session was hard-closed if and only if a tick found it stale, and its transport is down only for that or because it was lost |
| `SessionTheorems.PongsKeepOpen` | src/okx_ws_session.cpp:304-325 | a session whose every tick comes at most 60 s after a pong or the handshake is never hard-closed, over its whole run |
| `SessionTheorems.StaleExactly` | src/okx_ws_session.cpp:62-69 | a session is stale exactly when it has connected and both handshake and last pong are more than 60 s ago |
| `SessionTheorems.WriteFailureKeepsTimer` | src/okx_ws_session.cpp:235-240 | after a failed write the chain has ended, timer wait and pong age are untouched, and the session is held exactly while a wait is outstanding |
| `SessionTheorems.ReadFailureStopsTimer` | src/okx_ws_session.cpp:248-251 | after a failed read no wait is armed unless its tick was queued already, and delivering the aborted wait lets the session go |
| `SessionTheorems.CloseStopsTimer` | src/okx_ws_session.cpp:345-351 | a completed close stops the timer in the same way and leaves the chain alone |
| `SessionTheorems.FirstTick` | src/okx_ws_session.cpp:71-72 | the first tick is due 20 s after the session was created, so it is due at the handshake exactly if connecting took that long |
| `SessionTheorems.AckBeforeSubscribe` | src/okx_ws_session.cpp:281-294 | the promise that a private session subscribes only after the login is acknowledged holds if and only if the first inbound message is the successful login reply or is malformed |
| `SessionTheorems.ApplyFirstFlush` | src/okx_ws_session.cpp:245-299 | the first handled message flushes the first queued request at once; kept by every callback |
| `SessionTheorems.IdleQuit` | src/okx_ws_session.cpp:284-292 | a handled message makes a session ask to close exactly when it is public with nothing acknowledged and nothing queued; never a private one |
| `SessionAcks.AckedOnLives` | src/okx_ws_session.cpp:111-151 | on every run a request stands in the acknowledged list once for each acknowledgement received, less one, down to none, for each later unsubscription: told from the wire alone |
| `SessionAcks.AckRecorded` | src/okx_ws_session.cpp:140-141 | a subscribe acknowledgement is recorded, keeps even a public session open and makes the same request pointless |
| `SessionAcks.NeverWrittenAgain` | src/okx_ws_session.cpp:74-107 | on every run a request that is acknowledged and not unsubscribed since stays so; what has been written of it and what is queued keep their sum, so unless it is queued already it is never written again |
| `SessionChain.OrderOnLives` | src/okx_ws_session.cpp:153-243 | on every run resolve, connect, TLS handshake, WebSocket handshake, writes and reads succeed in this order and no other, and what is outstanding is what comes next |
| `SessionRelease.RankBound` | src/okx_ws_session.cpp:235-251 | the measure of callbacks that can still hold a session is at most 15, and 0 exactly when the weak reference has expired |
| `SessionRelease.DeadStep` | src/okx_ws_session.cpp:318-364 | a session whose transport or chain is gone stays so, and every callback that holds it lowers the measure; nothing re-arms for good |
| `SessionRelease.DeadProgress` | src/okx_ws_session.cpp:318-364 | while such a session is held, a callback that holds it can be delivered after waiting long enough |
| `SessionRelease.StuckIsExpired` | src/okx_ws_session.cpp:313-317 | a dead session for which no holding callback can be delivered any more, now or later, has expired, and only then |
| `SessionRelease.DeadRun` | src/okx_ws_session.cpp:235-251 | over any run, owner calls included, the callbacks used and the measure left never exceed the measure at the start |
| `SessionRelease.Released` | src/okx_ws_session.cpp:313-323 | on any run at most 15 more callbacks hold a dead session, and at its end the session has expired if and only if none can still be delivered |
| `SessionRelease.CanBeReleased` | src/okx_ws_session.cpp:313-323 | from every dead state, a hard close with its read outstanding and a failed write included, there is a run that ends with the session expired |
| `SessionRelease.WhatKills` | src/okx_ws_session.cpp:235-251 | a lost transport, a failed write or read, a message that cannot be parsed and a stale tick each leave a dead session |
| `SessionRelease.DeadHearsNothing` | src/okx_ws_session.cpp:192-199 | no pong can revive a dead session |
| `WsSession.WebSocketSession.Run` | src/okx_ws_session.cpp:396-411 | queues the request and starts the resolve, nothing else |
| `WsSession.WebSocketSession.WriteSubscriptionRequest` | src/okx_ws_session.cpp:74-90 | two scans and an append: drops a request that is acknowledged or queued |
| `WsSession.WebSocketSession.ReadSubscriptionRequest` | src/okx_ws_session.cpp:92-107 | pops the oldest request |
| `WsSession.WebSocketSession.OnHandshake` | src/okx_ws_session.cpp:211-233 | the whole new state after the handshake, for both outcomes |
| `WsSession.WebSocketSession.HandleControlEvent` | src/okx_ws_session.cpp:111-151 | only the login flag and the acknowledged list change |
| `WsSession.WebSocketSession.Erase` | src/okx_ws_session.cpp:143-145 | erases the first occurrence only |
| `WsSession.WebSocketSession.OnRead` | src/okx_ws_session.cpp:253-298 | the whole new state after a message |
| `WsSession.WebSocketSession.OnPingTimer` | src/okx_ws_session.cpp:304-364 | hard-closes and drops the wait when stale, otherwise renews it |
| `WsSession.WebSocketSession.Complete` | src/okx_ws_session.cpp:153-364 | every completion the io thread may deliver changes the object as the transition function says |
| `WsSession.RemoveFirstAt` | src/okx_ws_session.cpp:143-145 | what find and erase leave behind, without looking at how the search is done |
| `OrderStreamProofs.LateAckOpensGuard` | src/okx_private_stream.cpp:83-88 | otherwise it fails: the late login reply of a superseded session lets the next order out although the current session has not connected |
| `OrderStreamExample.UncoveredOrder` | src/okx_private_stream.cpp:83-88 | a concrete run from the start to that order |
| `OrderStreamExample.EarlySubscription` | src/okx_ws_session.cpp:281-283 | a concrete run on which a notice comes before the login reply and the subscription goes out at once |
| `OrderStreamExample.OrderOnDeadSession` | src/okx_execution_gateway.cpp:186-192 | a concrete run on which the transport is lost without notice and the next order goes out |
| `OrderStreamProofs.FailClosed` | src/okx_execution_gateway.cpp:186-201 | on every run on which each step that sets the flag does so when the current session counts as logged in, every order let through finds a current session that is held, has finished its handshake, has a pong age of at most 60 s, has sent its own freshly signed login first and had it acknowledged last |
| `OrderStreamProofs.OrdersCoveredExactly` | src/okx_execution_gateway.cpp:186-201 | on every run that is so if and only if no order was let through while the current session was not logged in |
| `OrderStreamProofs.HonestExactly` | src/okx_private_stream.cpp:83-88 | a step keeps the flag speaking for the current session if and only if it does not set it for a session that is not logged in: late replies of superseded sessions, texts of notices, errors, refused logins and parse errors included |
| `OrderStreamProofs.HonestOnRuns` | src/okx_private_stream.cpp:83-88 | the same for whole runs |
| `OrderStreamProofs.LinesOnRuns` | src/okx_execution_gateway.cpp:188-197 | on every run the guard's dead and recovered lines alternate |
| `OrderStreamLives.LifeOf` | src/okx_ws_client.cpp:107-134 | every generation of every run of the order stream has reached its state by a run of one session, so all session theorems hold for it |
| `OrderStreamLives.FramesOnRuns` | src/okx_ws_session.cpp:211-233 | in particular every frame of every generation has its place |
| `OrderStreamRelease.DeadOnRuns` | src/okx_ws_session.cpp:313-323 | on every run a dead generation stays dead, and after its handshake it is measured from the same moment for good |
| `OrderStreamRelease.ReplacedAfterDeath` | src/okx_ws_client.cpp:107-134 | a generation that died after its handshake is replaced by any re-subscription or submission more than 60 s after it was last heard from, with the flag reset and the submission refused |
| `OrderStreamRelease.ReplacedWhenExpired` | src/okx_ws_client.cpp:107-134 | and by any such step once nothing holds it, whether or not it ever connected |
| `OrderStreamRelease.BlindAtMostAMinute` | src/okx_ws_session.cpp:26-30 | when each step vouches for the flag, an order that goes out on a session that can no longer read does so at most 60 s after it died |
| `OrderStreamProofs.LoginOrderOnRuns` | src/okx_ws_session.cpp:211-233 | login first, and the exact condition for subscribing before the acknowledgement, for every session of every run |
| `OrderStreamProofs.SingleChainOnRuns` | src/okx_ws_session.cpp:74-107 | single chain and no lost, reordered or doubly queued subscription, for every session of every run |
| `OrderStreamProofs.SubscribeRevives` | src/okx_ws_client.cpp:107-134 | after a subscription the current session is held, not stale and has the request queued or acknowledged; a replaced one took the flag with it |
| `OrderStreamGuard.SubscribeExactly` | src/okx_ws_client.cpp:107-134 | in times and outstanding work alone: the generations stay if and only if the newest session has an operation or a wait outstanding and is either still connecting or at most 60 000 ms past its handshake or last pong; what becomes of queue, close requests, flag and new session in both cases |
| `OrderStreamGuard.SubscribeOnRuns` | src/okx_ws_client.cpp:107-134 | the same on every reachable state: exactly then no session is built |
| `OrderStreamGuard.SubmitExactly` | src/okx_execution_gateway.cpp:186-201 | on every run an order is placed if and only if that holds and the last login news since the newest session was built was good; otherwise nothing is placed and the stream is subscribed to again |
| `OrderStreamGuard.LinesExactly` | src/okx_execution_gateway.cpp:186-201 | on every run one dead line is logged when a submission is refused after a placed one or as the first, one recovered line when an order is placed after a refusal, and nothing else |
| `OrderStreamProofs.RefusalHeals` | src/okx_execution_gateway.cpp:186-201 | a refused submit places nothing and leaves such a session with the flag down |
| `OrderStreamRelease.HealedCanRead` | src/okx_execution_gateway.cpp:194-200 | that session can read, unless it is one that was kept and could not |
| `OrderStreamProofs.GuardAfterHealing` | src/okx_execution_gateway.cpp:186-201 | after a refusal and until the next rebuild the guard passes if and only if the session is alive and the last news about the login was good |
| `OrderStreamProofs.FailedLoginSticks` | src/okx_ws_session.cpp:124-133 | a failed login is never retried: when the venue answers each login at most once, a session whose login was refused has sent one login in all for as long as it stays alive, every submit is refused and nothing is rebuilt |
| `OrderStreamProofs.HardCloseWindow` | src/okx_ws_session.cpp:304-339 | with ideal timers a tick hard-closes a session exactly when it was silent for more than 60 s, at most 80 s, and otherwise waits another 20 s |
| `OrderStreamProofs.ZombieBound` | src/okx_ws_session.cpp:304-364 | with ideal timers a session silent for more than 80 s has no running timer, so it was hard-closed unless its timer had been cancelled, and has expired once its chain has ended |
| `OrderStream.WebSocketClient.Subscribe` | src/okx_ws_client.cpp:107-134 | routes to the newest session, or closes and replaces it, exactly as the system step says |
| `OrderStream.PrivateStream.SubscribeOrders` | src/okx_private_stream.cpp:102-113 | the flag survives only if the session was not rebuilt |
| `OrderStream.SubmitGuard.GuardPrivateStream` | src/okx_execution_gateway.cpp:186-201 | passes exactly when the stream is alive; a refusal triggers the rebuild |
| `OrderStream.SubmitGuard.Submit` | src/okx_execution_gateway.cpp:455-462 | an order is placed exactly when the guard passes |
| `OrderStream.SubmitGuard.Dispatch` | src/okx_private_stream.cpp:83-93 | one completion of any session, current or superseded, together with the logger callback |
| `RateLimiter.RateLimiter.Wait` | src/okx_rest_client.cpp:54-80 | records the slot that depends on the full history alone, although the deque forgets, and never remembers more than the limit |
| `RateLimiter.AtMostLimitPerWindow` | src/okx_rest_client.cpp:46-81 | over any sequence of calls with a clock that does not run backwards no window of the given length holds more than the limit of recorded requests |
| `RateLimiter.RunIsSpaced` | src/okx_rest_client.cpp:46-81 | any limit + 1 consecutive recorded requests span more than the window |
| `RateLimiter.SlotKeepsSpacing` | src/okx_rest_client.cpp:63-79 | one more call keeps that |
| `RateLimiter.SleepsOnlyWhenFull` | src/okx_rest_client.cpp:63-70 | a call sleeps if and only if limit recorded requests lie within the last window, and then for 10 ms to window + 10 ms |
| `RateLimiter.PauseExactly` | src/okx_rest_client.cpp:63-70 | a call that sleeps wakes 10 ms after the last millisecond at which limit requests still lie within the window |
| `RateLimiter.PrunedTracks` | src/okx_rest_client.cpp:58-61 | what the deque keeps is the suffix of the history inside the window |
| `Pagination.GetHistoricalPrices` | src/okx_rest_client.cpp:188-231 | for any page sizes and while new records appear, the result is the first snapshot's records strictly between the bounds, ascending, without the newest if it is still forming; the writer gets the trimmed pages |
| `Pagination.GetFundingRates` | src/okx_rest_client.cpp:265-285 | the same for funding rates, nothing dropped |
| `PagingSpec.OlderRecordsKept` | src/okx_rest_client.cpp:197-218 | asking any later snapshot for what is older than the j-th wanted record gives exactly the first j wanted records of the first snapshot |
| `PagingSpec.Continues` | src/okx_rest_client.cpp:197-218 | one round loses and repeats nothing |
| `PagingSpec.BetweenAscends` | src/okx_rest_client.cpp:229-230 | the result is strictly ascending |
| `PagingSpec.WantedExactly` | src/okx_rest_client.cpp:188-231 | a record is wanted if and only if the venue held it at the first request and its time is strictly between the bounds; the wanted records ascend |
| `Pagination.ReturnedExactly` | src/okx_rest_client.cpp:188-231 | a candle is returned if and only if it is wanted and finished, or wanted and not the newest one wanted; the returned candles ascend |
| `PagingSpec.EndsUnlessOpenStart` | src/okx_rest_client.cpp:171-177 | each bound is left out when the other one is -1, so the download ends if and only if it does not start at -1, or ends at or before -1, or the history is empty |
| `PagingSpec.OpenStartNeverEnds` | src/okx_rest_client.cpp:171-177 | with start -1 the newest page comes back for ever |
| `Counterexamples.EndlessDownload` | src/okx_rest_client.cpp:171-177 | a concrete venue and request that never end |
| `PagingSpec.HeldMovesDown` | src/okx_rest_client.cpp:197-218 | any other start moves the upper bound down in every round |
| `Pagination.WriterAgrees` | src/okx_rest_client.cpp:201-212 | the pages written are together the returned series newest first if and only if no page but the first starts with a forming candle |
| `Counterexamples.FormingOnSecondPage` | src/okx_rest_client.cpp:201-212 | two concrete pages on which writer and result differ |
| `Pagination.WriterAgreesForAllPageSizes` | src/okx_rest_client.cpp:201-212 | they agree however the venue cuts its pages if and only if only the newest wanted candle can be forming |
| `Crediting.CreditedOnce` | src/okx_execution_gateway.cpp:227-248 | the fills handed out are those of the first eligible row of each trade id, in order |
| `Crediting.AllPassedOn` | src/okx_execution_gateway.cpp:250-274 | every row of ours is passed on as one update, in order |
| `OrderRows.UpdatesExactly` | src/okx_execution_gateway.cpp:250-274 | told from rows and surroundings alone: the updates handed out are one for each row of an instrument listed under a non-empty symbol while the order callback is set, in order, with client id, symbol, price, cumulative quantity, state and reason as the row gives them; no other row yields one |
| `OrderRows.FillsExactly` | src/okx_execution_gateway.cpp:227-248 | and the fills one for the first row of each trade id with a positive fill size and the fill callback set, with all six fields as the row gives them |
| `OrderRows.SeenExactly` | src/okx_execution_gateway.cpp:232-233 | a trade id is remembered if and only if an earlier row carried it |
| `OrderRows.RowHandsOut` | src/okx_execution_gateway.cpp:208-275 | what one more row adds to the callbacks, its fill before its update |
| `Crediting.ReplayCreditsNothing` | src/okx_execution_gateway.cpp:155-158 | rows delivered again hand out no further fill |
| `OrderEvents.OrderEventHandler.HandleOrderEvent` | src/okx_execution_gateway.cpp:203-276 | the set of seen trade ids and all callbacks are those of the whole run, however rows are batched |
| `OrderEvents.OrderEventHandler.HandleRow` | src/okx_execution_gateway.cpp:208-275 | one row: foreign rows do nothing, the fill comes before the update |
| `OrderEvents.CreditedPerTrade` | src/okx_execution_gateway.cpp:155-159 | one set for all instruments credits each trade once if and only if no two instruments of ours deliver the same trade id |
| `Counterexamples.SharedTradeId` | src/okx_execution_gateway.cpp:227-234 | two concrete rows with one trade id on two instruments: the second fill is never handed out |
| `OrderEvents.RejectionsExplained` | src/okx_execution_gateway.cpp:258-271 | a rejection code outranks the state of the row, and exactly rejections and cancellations with a source carry a reason |
| `FillAccounting.FillsCoverUpdates` | src/okx_execution_gateway.cpp:227-274 | with arbitrary replays the base quantity credited before an update is never below the cumulative quantity it reports, and equals it if and only if the update is not older than one already seen |
| `FillAccounting.CreditedUpToPeak` | src/okx_execution_gateway.cpp:227-248 | what is credited to an order is the total of its trades up to the furthest one reported, each once |
| `FillAccounting.SeenUpToPeak` | src/okx_execution_gateway.cpp:232-233 | the remembered trade ids of an order are exactly those of its trades up to there |
| `FirstByKey.FirstsAreFirst` | src/okx_market_data_utils.cpp:251-255 | each kept element is the first of its key |
| `FirstByKey.FirstsDistinct` | src/okx_market_data_utils.cpp:251-255 | no key is kept twice |
| `FirstByKey.FirstsInOrder` | src/okx_market_data_utils.cpp:251-257 | kept elements stand in the order of the input |
| `FirstByKey.FirstsCover` | src/okx_market_data_utils.cpp:251-257 | no key is lost |
| `FirstByKey.InsertionExact` | src/okx_market_data_utils.cpp:251-257 | one more element changes what is kept if and only if its key is new at its place, unless the next new element behind it is the very same |
| `FirstByKey.CoarseKeyAgrees` | src/okx_execution_gateway.cpp:155-159 | keeping the first of a coarser key loses nothing if and only if no two finer keys share it |
| `InstrumentIndex.InstrumentIndex.RefreshInstruments` | src/okx_execution_gateway.cpp:328-371 | on any catalogue the two maps are exact inverses and every base resolves to its choice |
| `InstrumentIndex.InstrumentIndex.Consider` | src/okx_execution_gateway.cpp:336-367 | one instrument: both maps after it |
| `InstrumentIndex.PreferenceExact` | src/okx_execution_gateway.cpp:347-355 | the choice is the first live X-Perp of the base, or else its first live instrument, if and only if the first candidate does not merely look like an X-Perp by its id and the first X-Perp shows the marker in its id or is the last one: the test asks the family of the newcomer but the id of the incumbent |
| `Counterexamples.DisputedCatalogue` | src/okx_execution_gateway.cpp:347-355 | a concrete catalogue on which the true X-Perp is kept out |
| `InstrumentIndex.PreferenceHolds` | src/okx_execution_gateway.cpp:347-355 | in particular whenever marker in family and marker in id agree |
| `InstrumentIndex.FirstIsFirst` | src/okx_execution_gateway.cpp:336-345 | no candidate precedes the first |
| `InstrumentIndex.CandidateExactly` | src/okx_execution_gateway.cpp:336-345 | an instrument counts for a symbol if and only if it is live and its id is the symbol, which has no dash, followed by a dash |
| `InstrumentIndex.MarkerExactly` | src/okx_execution_gateway.cpp:347-352 | the marker is found exactly if the letters XPERP stand somewhere in the text |
| `InstrumentIndex.PreferredExactly` | src/okx_execution_gateway.cpp:347-355 | the promised instrument, in those terms: no earlier X-Perp, or no X-Perp at all and no earlier instrument |
| `InstrumentIndex.RefreshExactly` | src/okx_execution_gateway.cpp:328-371 | after a refresh a symbol is known if and only if some instrument of the catalogue is traded as it; all its numbers are those of one such instrument, and of the promised one whenever the catalogue is undisputed |
| `OrderSizing.LotsUnique` | src/okx_execution_gateway.cpp:42-47 | the lot count is the only whole number from a billionth lot above to a lot less that billionth below the wanted size |
| `OrderSizing.Rounding` | src/okx_execution_gateway.cpp:42-47 | at most a billionth lot too much, less than a lot too little |
| `OrderSizing.Idempotent` | src/okx_execution_gateway.cpp:42-47 | rounding twice is rounding once, also without a lot size |
| `OrderSizing.Monotone` | src/okx_execution_gateway.cpp:42-47 | rounding keeps the order of sizes |
| `OrderSizing.GridQuantities` | src/okx_execution_gateway.cpp:403-419 | a quantity on the reported step grid is accepted if and only if it is positive and at least the reported minimum; it is sent as exactly that many lots and converts back |
| `OrderSizing.AcceptedQuantities` | src/okx_execution_gateway.cpp:464-468 | any accepted quantity is sent as whole steps, at least the minimum, within a step below and a billionth step above |
| `OrderSizing.RefreshedSpecs` | src/okx_execution_gateway.cpp:357-367 | after a refresh the reported numbers are those of the chosen instrument in base units, the contract value is positive, and an upper limit is never known |
| `OrderSizing.SizedExactly` | src/okx_execution_gateway.cpp:464-468 | an unknown instrument is refused for good; of a known one exactly the whole lots that fit are sent, the wanted size itself without a lot size, and nothing that is not positive or below the minimum |
| `OrderSizing.LimitAsAsked` | src/okx_execution_gateway.cpp:455-485 | a limit order is sent on the caller's side, post-only, at the caller's price, with the caller's reduce-only flag and translated id |
| `OrderSizing.MarketAsAsked` | src/okx_execution_gateway.cpp:525-550 | a market order is sent on the caller's side, without a price, always reduce-only and with the translated id |
| `OrderSizing.SpecExactly` | src/okx_execution_gateway.cpp:403-419 | every reported number of an instrument, and the refusal of an unknown one |
| `OrderIds.RoundTrip` | src/okx_execution_gateway.cpp:115-123 | translating an id to the venue and back restores it if and only if it has no Z |
| `OrderIds.Injective` | src/okx_execution_gateway.cpp:106-118 | two ids without a Z never meet at the venue |
| `OrderIds.VenueSide` | src/okx_execution_gateway.cpp:115-123 | no dash reaches the venue, and its dash-free ids survive the opposite way round |
| `OrderRoundTrip.FillComesBack` | src/okx_execution_gateway.cpp:455-492 | a full fill of an order of either kind is recognised, unless the symbol is empty, with its symbol, price and quantity, and carries the caller's id if and only if that has no Z |
| `Counterexamples.EmptySymbol` | src/okx_execution_gateway.cpp:208-218 | a concrete instrument that is listed under the empty symbol and whose fills are ignored |
| `Counterexamples.LostId` | src/okx_execution_gateway.cpp:115-123 | a concrete id that comes back changed |
| `OrderRoundTrip.GridFillIsExact` | src/okx_execution_gateway.cpp:525-550 | on the grid both kinds of order are accepted alike and the quantity credited is the quantity asked for |
| `OrderRoundTrip.FillMovesPosition` | src/okx_execution_gateway.cpp:455-550 | a full fill of either kind of order moves the position in the direction asked for, by the quantity asked for less at most a step |
| `OrderRoundTrip.GridFillMovesExactly` | src/okx_execution_gateway.cpp:455-550 | and on the grid by exactly that quantity |
| `ZipExtraction.ReadEntry` | src/okx_market_data_utils.cpp:83-119 | the loop ends and the outcome does not depend on how the decompressor cuts the entry: with a declared size exactly its first bytes or a failure, without one everything |
| `ZipExtraction.ExtractedExactly` | src/okx_market_data_utils.cpp:83-119 | that outcome: a beginning of the entry, of the declared length or all of it, and which failure is reported exactly when |
| `ZipExtraction.SurplusIgnored` | src/okx_market_data_utils.cpp:83-119 | what stands behind the declared bytes, a failure included, has no influence exactly if the declared bytes are there |
| `ZipExtraction.Resized` | src/okx_market_data_utils.cpp:91-92 | growing keeps the earlier bytes and fills up with zeros |
| `ZipExtraction.EntryStream.Read` | src/okx_market_data_utils.cpp:95-107 | what a read of the decompressor may do |
| `CsvParsing.ParseCandlesCsv` | src/okx_market_data_utils.cpp:136-275 | the loop gives the first usable row of each time, in file order |
| `CsvParsing.ParseFundingRateCsv` | src/okx_market_data_utils.cpp:277-360 | the same for funding rates |
| `CsvParsing.ParseRows` | src/okx_market_data_utils.cpp:146-265 | the shared loop with its set of seen times and its first-line flag |
| `CsvParsing.ArchiveReadsBack` | src/okx_market_data_utils.cpp:171-249 | an archive written in the documented columns parses to the first candle of each time, whatever candles it holds |
| `CsvParsing.CandleReadsBack` | src/okx_market_data_utils.cpp:191-233 | one row of the documented columns parses to its candle |
| `CsvParsing.FundingReadsBack` | src/okx_market_data_utils.cpp:304-340 | both documented funding formats parse to their record |
| `CsvInstruments.CandleExactly` | src/okx_market_data_utils.cpp:171-240 | a row has a candle if and only if it has ten fields, is of the named instrument if one is named, and its decimals can be read, two of them also missing; where each column goes |
| `CsvInstruments.FundingExactly` | src/okx_market_data_utils.cpp:304-345 | the same for funding rates: three fields, the named instrument, a rate that is there and can be read |
| `CsvInstruments.TimeExactly` | src/okx_market_data_utils.cpp:206-209 | a time is the number at the start of its field, whatever follows, if it fits 64 bits |
| `CsvInstruments.OtherCandlesAbsent` | src/okx_market_data_utils.cpp:185-192 | rows of other instruments, wherever they stand and whatever their times, leave the candles of the named one as if they were absent |
| `CsvInstruments.OtherRatesAbsent` | src/okx_market_data_utils.cpp:320-326 | the same for funding rates |
| `CsvInstruments.MixedArchiveReadsBack` | src/okx_market_data_utils.cpp:185-257 | a file of any candles of any instruments in any order gives the first candle of each time among those of the named instrument, and without a name among all |
| `CsvInstruments.MixedRatesReadBack` | src/okx_market_data_utils.cpp:304-350 | the same for funding rates, with both documented formats mixed |
| `CsvInfluence.FirstLineKept` | src/okx_market_data_utils.cpp:157-164 | the first line that is not empty is read like every other if and only if it starts with a digit or has no record anyway; otherwise its record is lost |
| `CsvInfluence.UnusableLineIgnored` | src/okx_market_data_utils.cpp:171-190 | in a file with a header a line without a record (empty, too few fields, a decimal that cannot be read, another instrument) changes nothing, wherever it stands |
| `CsvInfluence.LineInfluences` | src/okx_market_data_utils.cpp:157-257 | in a file with a header removing a line changes the result if and only if it has a record whose time is new there, unless the next new record is the very same; a row with an unreadable time counts as one of time 0 |
| `CsvInfluence.UnreadableCandleKept` | src/okx_market_data_utils.cpp:206-209 | what comes out is the first usable row of each time, and a row without a readable open time is among it if and only if one has no usable row of time 0 before it |
| `CsvInfluence.UnreadableFundingKept` | src/okx_market_data_utils.cpp:328-338 | the same for funding rows |
| `Counterexamples.UnreadableTimes` | src/okx_market_data_utils.cpp:206-209 | a concrete file whose first row without a readable time comes out at time 0 and hides the second |
| `Counterexamples.HeaderlessFile` | src/okx_market_data_utils.cpp:157-164 | a concrete file of one good row that comes out empty |
| `CsvParsing.LineEndsDoNotMatter` | src/okx_market_data_utils.cpp:147-150 | turning every line end of a text without carriage returns into a Windows line end does not change the result |
| `CsvParsing.SplitFields` | src/okx_market_data_utils.cpp:167-173 | the field loop is the split of the line |
| `CsvText.SplitJoin` | src/okx_market_data_utils.cpp:167-173 | splitting joined fields gives them back, except that an empty last field is never seen |
| `CsvText.CrlfSameLines` | src/okx_market_data_utils.cpp:146-150 | the lines themselves are the same after the line ends are converted |
| `CsvText.CleanExactly` | src/okx_market_data_utils.cpp:147-150 | one carriage return at the end of a line is dropped, no more and nothing else |
| `DecimalText.DecimalToString` | src/okx.cpp:15-29 | erasing zeros and the point in place leaves the shortest form |
| `DecimalText.ReadsBack` | src/okx.cpp:15-29 | for every multiple of 1e-12, negative ones included, an independent reader gets exactly that value from the text |
| `DecimalText.Injective` | src/okx.cpp:15-29 | different values print differently |
| `DecimalText.PrintedIsCanonical` | src/okx.cpp:22-27 | no trailing zero in a fraction, no dangling point, no leading zero, zeros of the integer part kept, no negative zero |
| `DecimalText.TrimmingLeavesFraction` | src/okx.cpp:22-27 | cutting zeros stops at the point, whatever stands before it |
| `SubscriptionCodec.CodecRoundTrip` | src/okx_event_models.cpp:15-36 | reading back a written subscription restores it although empty fields are left out |
| `SubscriptionCodec.DumpReadsBack` | src/okx_ws_session.cpp:104-106 | an independent reader restores any object of text fields from its text, whatever characters the fields hold |
| `SubscriptionCodec.TextsIdentify` | src/okx_ws_session.cpp:77-87 | two request texts are equal if and only if the subscriptions are, so comparing texts is sound |
| `SubscriptionCodec.EchoMatches` | src/okx_ws_session.cpp:140-145 | an acknowledgement is filed under the request's own text if and only if its echo agrees on channel, instId and instType, whatever else it carries |
| `SubscriptionCodec.SentAsQueued` | src/okx_ws_session.cpp:99-106 | what is sent for a queued text is the subscription it was made from |
| `SubscriptionText.FieldsExactly` | src/okx_event_models.cpp:15-29 | the object lists channel, instId and instType once each under their names, and neither of the last two when it is empty |
| `SubscriptionText.RequestTextExactly` | src/okx_ws_session.cpp:77-106 | the text of a request, character by character |

## Left out

- OS threads, the restart of the io context, and the lifetime of callbacks that capture only `this`.
- TLS, HTTP, HMAC signing, minizip internals and general JSON parsing: inputs, parameters or nondeterministic steps.
- A subscription request that is not a JSON object, or is empty: the callers shown here never build one.
- Control events of unknown kinds: the enum reader they go through is not part of this model.
- Rounding of doubles and of 50-digit decimals; values that are not multiples of 1e-12 when printed.
- ZipExtraction.ReadEntry: sizes above 2 GB, where the code narrows the room it passes to the decompressor.
- SubscriptionCodec.DumpReadsBack: objects hold text fields only, and invalid UTF-8, which makes the code throw, does not occur.
- OrderEvents.OrderEventHandler.HandleOrderEvent: does not model a row with a text field of another JSON type, where the code throws and drops the rest of the batch (and, if the field is execType, the row's fill for good); nor the finite table that classifies rejection codes.
- OrderStreamRelease.ReplacedAfterDeath: a session that dies while still connecting is replaced once it has expired; the 30 s limit of the connect itself belongs to the socket library and is not part of this model.
- A refused login whose message is not a text, where the code takes the login flag down and then throws.
- RateLimiter.RateLimiter.Wait: the lock is held for the whole call, so calls are one after the other.
- The sorting and archive selection of downloadAndParseHistoricalCandles, bar size tables, and the field-by-field JSON readers.
- The quote stream of the gateway, cancel, the stream manager and the futures connector.
