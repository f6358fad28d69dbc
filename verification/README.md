# Verified model of the SSP ad server

A Dafny 4.11 model of the parts of the ad server whose correctness depends on
interleaving, on state kept over many calls, or on arithmetic: the distributed
rate limiter, the DSP fan-out, the auction, the bid handler's impression loop with
its queues and win notices, the batched campaign load, and the Redis cache over
the repository. `dafny verify dfyconfig.toml` checks everything.

## How the model is laid out

| file | what it models |
|---|---|
| `Sequences.dfy` | selection, flattening and permutations of sequences |
| `Auction.dfy`, `AuctionLaws.dfy` | floor filter, in-place sort, `RunAuction`; what an auction decides, said without a sort |
| `Fanout.dfy`, `FanoutLaws.dfy` | goroutines, wait group, channel and closer as interleaved steps |
| `BidHandling.dfy`, `BidHandlingLaws.dfy` | internal bids, impression loop, seats, events, notices; the end-to-end result |
| `WorkerPool.dfy` | bounded queues and the workers that drain them |
| `Text.dfy`, `WinNotice.dfy` | decimal text, left-to-right replacement, price macro |
| `RateLimiter.dfy`, `RateLimiterLaws.dfy`, `RateLimiterTightness.dfy` | INCR/EXPIRE protocol over many pods; upper bounds; runs that reach them |
| `UUIDs.dfy` | the spellings of a UUID, and the one in which it is read back |
| `Repository.dfy`, `RepositoryLaws.dfy` | tables, keys, batched and simple loads, what each write does to a lookup |
| `CampaignCache.dfy`, `CacheLaws.dfy` | the read-through cache, one operation at a time; PATCH, whole or interrupted |
| `Staleness.dfy` | one cached key, list or campaign, under concurrency and lost Redis operations |

Objects whose methods update fields are classes (`RedisClient`, `GlobalRateLimiter`,
`PgRepository`, `RedisCache`, `CampaignHandler`, `BidHandler`, `BoundedQueue`); each
method is proved against a function of the old state, and the laws are proved about
those functions. Protocols are state machines over events; a run is a sequence of
events, and a result about runs quantifies over all of them. Fields described as
histories are read by no step.

Prices are reals. Times are milliseconds. Calls to other systems are parameters or
events: what each DSP answered, whether a Redis command ran, whether its reply
arrived, when an entry expired, which thread moves next.

## Results in short

- **Rate limiter.** With clock skew `S` and at most `D` between reading the clock and
  the INCR, a client's minute admits at most the limit in every run if and only if
  `2S + D <= 60 s`. Then, over any window, the exact bound is the limit times the
  minutes that the window's clock readings can touch: for requests counted by the
  instant of their clock reading, from `since - S` to `since + length - 1 + S` (in ms);
  for requests counted by the instant they are let through, from `since - D - S`. The
  simple bound, limit * (ceil(length / 60 s) + 1), always holds for unskewed clock
  readings; for 60 s windows of let-through instants it holds if and only if
  `2S + D <= 1 ms`. Twice the limit passes within two milliseconds in any case. A
  counter without an expiry, never to get one, arises if and only if a first INCR's
  reply or an EXPIRE was lost.
- **Fan-out.** No panic, no blocked send, no deadlock, at most `6n + 4` steps; the
  possible results are exactly the arrangements of the successful clients' lists.
- **Auction.** The result does not depend on arrival order or on the sort; the winner
  is determined if and only if the lead is untied. Exact conditions for paying more
  than one's bid and for one more bid lowering the price.
- **Response.** Two requests with the same DSP answers get the same prices, ids and
  sizes whatever the goroutine schedule, and the same winners unless bids tie.
- **Queues.** Events are conserved in every interleaving, none is dropped if and only if
  the backlog stays within the capacity, and once offers stop the workers finish
  everything in a number of steps that is known beforehand.
- **Cache.** A UUID has many spellings; a row is found under any of them, but cached
  under the text that a create was given and under the text in which the row is read
  back. One operation at a time: list reads are current, and in runs whose creates carry
  ids as they are read back, reads and PATCHes under any spelling see the stored status
  and budget and a PATCH touches only the fields it gives. Otherwise they fail: a
  campaign created under an upper-case id and paused still reads as active, and giving
  it a budget then makes it active again (`UpperCaseRun`). In every run, a read by id
  returns the stored status and budget if and only if its key is not such an alias,
  overtaken by a write; and the whole stored record if and only if its copy is not a
  create request's snapshot that was not stored as it is (creatives, rules naming
  another campaign, ids in another form) and that nothing has refreshed. When other
  operations come between a PATCH's read and its write, it touches only the fields it
  gives if and only if the copy it read holds the others' stored values. Concurrently: a
  list is at most 30 s plus the reader's delay old, a campaign's status and budget 60 s
  plus the delay, and no smaller bounds hold.

## Where the code and its documentation differ

The model follows the code.

- `internal/resilience/rate_limiter.go:13,21` and `README.md:618` say "sliding window".
  The code counts fixed minutes; see `TwiceTheLimitInTwoMilliseconds`.
- `internal/resilience/rate_limiter.go:23` says EXPIRE 60 s; the code sets 120 s.
- `internal/resilience/rate_limiter.go:101` says a key whose EXPIRE failed will expire
  eventually. It never does; see `OrphanNeverExpires`.
- No middleware sets `client_ip`, so in this deployment every request shares the
  `global` counter. The model keeps the client as an arbitrary text.
- `internal/auction/engine_test.go:181` speaks of a stable sort. `sort.Slice` promises
  none; see `WinnerDeterminedIffUntied`.

## Model

| member | source | states |
|---|---|---|
| Auction.EnforceFloor | internal/auction/floor.go:10-27 | exactly the bids at or above the floor, each as often as it was given and in their order, the input unchanged |
| Auction.BeforeIsStrictWeakOrder | internal/auction/engine.go:55-62 | the sort's comparison is a strict weak order: asymmetric, and not coming before is transitive |
| AuctionLaws.DealsBeforePrices | internal/auction/deal.go:5-16 | PG before PMP before Open before any other deal at any prices; within one deal the higher price first |
| AuctionLaws.WinnerIsBest | internal/auction/engine.go:53-64 | the winner's deal is the best among the bids at or above the floor, and within that deal its price |
| Auction.SortByRank | internal/auction/engine.go:55-62 | the in-place sort rearranges its input into rank order |
| Auction.RunAuction | internal/auction/engine.go:34-100 | an unbeaten bid at or above the floor wins, if there is one; with the flag on and `at` = 1 it pays its own bid, else the floor when alone and the best other such bid plus 0.01 otherwise; without one the answer is `no_valid_bids` at 0 |
| Auction.RankingSettles | internal/auction/engine.go:53-88 | what the code reads off any ranking that the sort may leave is a settlement |
| AuctionLaws.SettlementHasRanking | internal/auction/engine.go:53-88 | conversely every settlement is read off some ranking that the sort may leave |
| AuctionLaws.SettlementsAgree | internal/auction/engine.go:40-88 | rearranged bids and different sorts give the same counts, clearing price, and winning rank |
| AuctionLaws.WinnerDeterminedIffUntied | internal/auction/engine.go:53-64 | the winner is the same in every settlement if and only if no two different valid bids share the leading rank |
| AuctionLaws.PriceRespectsFloor | internal/auction/engine.go:73-88 | the winner bid at least the floor and pays at least the floor; in second-price mode exactly the floor if and only if alone |
| AuctionLaws.OverchargeIff | internal/auction/engine.go:75-87 | a contested winner pays more than its bid if and only if the runner-up bid more than the winner's own bid minus 0.01, and at most 0.01 more within one priority |
| AuctionLaws.OwnBidDoesNotSetPrice | internal/auction/engine.go:75-87 | any other bid with which a strict winner still strictly wins leaves its second price unchanged |
| AuctionLaws.AddedBidLowersPriceIff | internal/auction/engine.go:55-87 | one more bid lowers the second price if and only if it is valid and the bid that becomes runner-up outranks the old one by its deal while bidding less |
| AuctionLaws.RevenueMonotone | internal/auction/engine.go:55-87 | within one deal priority one more bid never lowers the second price |
| AuctionLaws.RevenueNotMonotoneAcrossPriorities | internal/auction/engine.go:55-87 | a guaranteed bid of 1.50 lowers a price from 5.01 to 1.51 |
| Fanout.RunKeepsInv | internal/dsp/fanout.go:46-110 | every reachable state keeps the wait counter, channel, closer and delivery invariants |
| FanoutLaws.ChannelSafety | internal/dsp/fanout.go:47-103 | no panic; every worker about to send finds the channel open with room; it is closed only after all workers finished |
| FanoutLaws.Progress | internal/dsp/fanout.go:49-110 | until the caller returns some thread can move; afterwards every goroutine has ended |
| FanoutLaws.RunsAreFinite | internal/dsp/fanout.go:46-110 | any interleaving of n clients has at most 6n + 4 steps, n = 0 included |
| FanoutLaws.ResultIsArrangement | internal/dsp/fanout.go:93-110 | the returned bids are the successful clients' lists, each once, whole and in its own order |
| FanoutLaws.EveryAnswerReturned | internal/dsp/fanout.go:93-110 | every complete run returns exactly the bids of the fetched clients, with multiplicities, and each client's bids in one unbroken stretch |
| FanoutLaws.RunsReturnSameBids | internal/dsp/fanout.go:93-110 | two complete runs over the same answers return the same multiset of bids |
| FanoutLaws.Completion | internal/dsp/fanout.go:49-110 | every partial run can be completed, keeping what was already sent |
| FanoutLaws.EveryArrangementHappens | internal/dsp/fanout.go:93-110 | every order of the successful clients is the result of some run |
| FanoutLaws.FetchBids | internal/dsp/fanout.go:38-111 | under any scheduler the call ends and returns every bid of every client that was fetched, as often as it was answered, each client's in one unbroken stretch |
| BidHandling.MapInternalBids | internal/handler/bid.go:317-343 | one bid for each matched campaign with a creative and a positive price: guaranteed, of seat `internal`, at that price, for its first creative, for any impression |
| BidHandling.CollectBids | internal/handler/bid.go:362-370 | each bid as often as DSPs made it for the impression, plus as often as it is among the internal bids |
| BidHandling.ListSeats | internal/handler/bid.go:442-448 | each seat once with its bids, in whatever order the map is iterated |
| BidHandling.BidHandler.constructor | internal/handler/bid.go:63-76 | separate empty queues with room for 10000 events and 1000 notices |
| BidHandling.BidHandler.PublishImpressionEvent | internal/handler/bid.go:495-538 | exactly one event is offered, with the bid's and the request's data, the device's type and its place if known |
| BidHandling.BidHandler.FireNURL | internal/handler/bid.go:543-560 | exactly one notice is offered |
| BidHandling.BidHandler.ServeWin | internal/handler/bid.go:377-406 | a win yields a bid with the winner's ad and creative at the clearing price, in the winner's seat, its event, and a notice if and only if the winner is not `internal` and has a URL |
| BidHandling.BidHandler.ServeHouseAd | internal/handler/bid.go:407-434 | the fallback yields the configured house ad in seat `house-ad`, its event under `house-deal`, and no notice |
| BidHandling.BidHandler.HandleBid | internal/handler/bid.go:317-470 | one auction for each processed impression, among the DSP bids for it and all internal bids, at its floor, first-price if and only if the flag is on and `at` = 1, sold to one of those; the reply lists their bids by seat; one event a bid and one notice an outside win are offered, in impression order |
| BidHandlingLaws.ReplyConserves | internal/handler/bid.go:437-454 | the reply's bids are a rearrangement of the impressions' outcomes, and 204 is answered if and only if there is none |
| BidHandlingLaws.ReplySeats | internal/handler/bid.go:383-448 | each listed seat has at least one bid, and exactly those of its own impressions, in impression order |
| BidHandlingLaws.WinContributes | internal/handler/bid.go:377-406 | a settled win gives a bid with the winner's ad, creative and seat, the clearing price and the banner's size, an event that says so, and a notice if and only if an outside DSP gave a URL |
| BidHandlingLaws.HouseContributes | internal/handler/bid.go:407-434 | without a winner the house ad is served if and only if house ads are on, as configured, without a notice |
| BidHandlingLaws.OneSlotPerServedImp | internal/handler/bid.go:353-435 | the impressions with a valid bid, or all with house ads on, get exactly one bid each, whose event and notice carry its id, impression and price |
| BidHandlingLaws.FiredNoticesCarryBidPrice | internal/handler/bid.go:108-121 | every fired URL is macro-free and announces the price of the response bid for its impression |
| BidHandlingLaws.WinsRespectFloor | internal/handler/bid.go:373-400 | an auction win is never sold below the impression's floor |
| BidHandlingLaws.HandlerQueuesDeliver | internal/handler/bid.go:74-102 | over every run of the event queue with its 16 workers, and of the notice queue with its 4: events are conserved, at most 10000 (1000) queued and 16 (4) in flight, and once offers stop all are dropped or finished, in a known number of steps |
| BidHandlingLaws.BidIDsEqualIff | internal/handler/bid.go:378-381 | with several impressions two bid ids are equal if and only if the impression ids and the kind of bid are |
| BidHandlingLaws.BidIDsDistinct | internal/handler/bid.go:378-381 | distinct impression ids give distinct bid ids over the whole loop |
| BidHandlingLaws.ReplyBidIDsDistinct | internal/handler/bid.go:419-454 | no bid id repeats in a reply to a request with distinct impression ids |
| BidHandlingLaws.ScheduleIndependence | internal/handler/bid.go:303-374 | same DSP answers, any goroutine schedules, any sorts: same counts, prices, ids and sizes for every impression, and the same winner, event and notice unless the lead is tied |
| WorkerPool.BoundedQueue.Offer | internal/handler/bid.go:526-537 | an offer is appended if and only if there is room, else dropped; it never blocks |
| WorkerPool.OfferIsStep | internal/handler/bid.go:526-537 | an offer to that queue is the offer step of the pool that the workers drain |
| WorkerPool.PoolConserves | internal/handler/bid.go:93-102 | in every interleaving offered = dropped + finished + in flight + queued, the queue is bounded, and events are handed out once each in acceptance order |
| WorkerPool.NothingDroppedIff | internal/handler/bid.go:526-537 | a run drops nothing if and only if offers never outnumber takes by more than the capacity |
| WorkerPool.PoolProgresses | internal/handler/bid.go:93-102 | while anything is queued or in flight some worker can act |
| WorkerPool.PoolDrains | internal/handler/bid.go:93-102 | once offers stop, any continuation takes at most 2 * queued + in flight steps, can go no further if and only if it took that many, and then offered = dropped + finished |
| Text.NoneLeft | internal/handler/bid.go:112 | replacing by a text without the macro's characters leaves no macro, not even across an insertion |
| Text.PiecesUnique | internal/handler/bid.go:112 | a text assembled from macro-free pieces is cut back into exactly those pieces |
| WinNotice.ExpansionLaws | internal/handler/bid.go:112 | the fired URL has no macro and is the URL with the price text at each macro and nothing else changed |
| WinNotice.TemplateRecovered | internal/handler/bid.go:112 | the URL's pieces and price slots are recovered from the URL alone |
| WinNotice.PriceTextAccurate | internal/handler/bid.go:112 | the price text reads back to within half a unit of the fourth decimal |
| WinNotice.SampleNotice | internal/handler/bid.go:112 | `?p=${AUCTION_PRICE}&q=${AUCTION_PRICE}` at 1.5 is fired as `?p=1.5000&q=1.5000` |
| RateLimiter.KeyTextInjective | internal/resilience/rate_limiter.go:74-81 | different clients or minutes never share a Redis key |
| RateLimiter.SampleKeyText | internal/resilience/rate_limiter.go:81 | client 10.0.0.1 in minute 7 is counted under `ratelimit:10.0.0.1:7` |
| RateLimiter.RedisClient.Incr | internal/cache/redis.go:121-131 | the counter is created at 1 or increased by one, and the new value returned, unless the command did not run |
| RateLimiter.RedisClient.Expire | internal/cache/redis.go:133-142 | a delivered expiry of any length is set on an existing key and on no other |
| RateLimiter.GlobalRateLimiter.Allow | internal/resilience/rate_limiter.go:66-106 | allowed on an error or without Redis, else if and only if the new count of the client (or `global`) and clock minute is within the limit; an INCR that ran adds one to that counter, a first hit whose EXPIRE arrives gives it 120 s, and no other counter changes |
| RateLimiterLaws.IncrSeesTrueCount | internal/resilience/rate_limiter.go:98-103 | while an INCR can still run the counter has not expired and holds the number of INCRs that ran |
| RateLimiterLaws.BucketBound | internal/resilience/rate_limiter.go:79-105 | each client and minute admits at most the limit in every run, even if any EXPIRE is late or lost |
| RateLimiterLaws.TTLCoversIff | internal/resilience/rate_limiter.go:79-103 | the condition of these bounds: twice the skew plus the delay is at most 60 s |
| RateLimiterLaws.WindowBound | internal/resilience/rate_limiter.go:66-105 | the requests let through whose clock reading (or whose decision, the instant they are let through) falls in a window number at most the limit times the minutes their readings can touch, plus failures |
| RateLimiterLaws.WindowBoundUnskewed | internal/resilience/rate_limiter.go:66-105 | counted by clock reading, with unskewed clocks, at most limit * (ceil(length / 60 s) + 1), plus failures |
| RateLimiterTightness.BucketBoundIff | internal/resilience/rate_limiter.go:79-105 | the limit a minute holds in every run if and only if twice the skew plus the delay is at most 60 s |
| RateLimiterTightness.LateRequestsGetFreshCounter | internal/resilience/rate_limiter.go:98-103 | beyond that skew a run admits limit + 1 in one minute |
| RateLimiterTightness.WindowBoundIff | internal/resilience/rate_limiter.go:66-105 | for any covered skew and delay, by clock reading or by decision: a bound on a window holds in every run if and only if it is at least the limit times the minutes the readings can touch |
| RateLimiterTightness.EveryWindowBoundIff | internal/resilience/rate_limiter.go:66-105 | the same for all windows of one length at once: the limit times the most minutes that length, lag and twice the skew can touch |
| RateLimiterTightness.SimpleBoundIff | internal/resilience/rate_limiter.go:66-105 | limit * (ceil(length / 60 s) + 1) holds for all windows of a length if and only if lag and twice the skew exceed what the length lacks to whole minutes by at most 1 ms |
| RateLimiterTightness.ThriceTheLimitInOneMinute | internal/resilience/rate_limiter.go:66-105 | with 2 ms of delay (or 1 ms of skew) a run without failures lets three times the limit through within 60 s |
| RateLimiterTightness.TwiceTheLimitInTwoMilliseconds | internal/resilience/rate_limiter.go:13-24 | a run without failures lets twice the limit through within two milliseconds |
| RateLimiterTightness.LostExpireRun | internal/resilience/rate_limiter.go:98-103 | a run that leaves a counter without its EXPIRE |
| RateLimiterTightness.RunKeepsPending | internal/resilience/rate_limiter.go:98-103 | in every run a pending EXPIRE is the only one for its counter, which exists and has no expiry |
| RateLimiterTightness.OrphanedIff | internal/resilience/rate_limiter.go:87-103 | after any run a counter has no expiry and none to come if and only if some step was a first INCR of it whose reply was lost, or a lost EXPIRE of it |
| RateLimiterTightness.OrphanNeverExpires | internal/resilience/rate_limiter.go:98-103 | such a counter stays for ever, without expiry, and never falls |
| RateLimiterTightness.AllowIsARun | internal/resilience/rate_limiter.go:66-106 | one uninterrupted call is a run of the protocol's steps with the same store, answer and record |
| UUIDs.CanonIsCanonical | internal/db/migrations/000001_create_campaigns.up.sql:2 | the text in which a UUID column is read back spells the same value, and is read back as it is |
| UUIDs.CanonShape | internal/db/migrations/000001_create_campaigns.up.sql:2 | what is read back has 36 characters, hyphens at 8, 13, 18 and 23 |
| UUIDs.SameIDIff | internal/db/migrations/000001_create_campaigns.up.sql:2 | two accepted texts spell one value if and only if they have the same hexadecimal digits up to case |
| UUIDs.UpperCaseIsAlias | internal/db/migrations/000001_create_campaigns.up.sql:2 | an upper-case text is accepted and read back as another text |
| Repository.Assemble | internal/campaign/repository.go:84-149 | the index-map assembly attaches to each campaign exactly its own rows, in row order, skipping others |
| Repository.PgRepository.GetActiveCampaigns | internal/campaign/repository.go:72-150 | the batched load returns the rows with status `active`, each with its associations |
| Repository.PgRepository.GetCampaignByID | internal/campaign/repository.go:152-178 | under any spelling of its id, the row and its associations; not found; or an error for a text that is no UUID |
| Repository.PgRepository.CreateCampaign | internal/campaign/repository.go:41-70 | all or nothing: the row and its rules under its id, UUIDs as they are read back, no creatives; a conflict under any spelling, or a text that is no UUID, changes nothing |
| Repository.PgRepository.UpdateCampaign | internal/campaign/repository.go:180-193 | status and budget of the row with the id, under any spelling, and nothing else; not found changes nothing |
| Repository.PgRepository.AddCreative | internal/campaign/repository.go:195-204 | the creative is appended with its ids' values and every other field as given, unless its id exists or its campaign does not |
| RepositoryLaws.InsertedKeepsKeys | internal/db/migrations/000001_create_campaigns.up.sql:1-35 | creating a campaign keeps primary and foreign keys |
| RepositoryLaws.UpdatedKeepsKeys | internal/db/migrations/000001_create_campaigns.up.sql:1-35 | an update keeps primary and foreign keys and the set of campaigns |
| RepositoryLaws.LookupInserted | internal/campaign/repository.go:41-70 | a created campaign is found under every spelling of its id, without creatives and with its rules under its own id, UUIDs as they are read back; no other lookup changes |
| RepositoryLaws.LookupUpdated | internal/campaign/repository.go:180-193 | an update changes status and budget of what is found under the spellings of its id, and no other lookup |
| RepositoryLaws.LookupWithCreative | internal/campaign/repository.go:195-204 | a creative is added to what is found under the spellings of its campaign's id, and to no other lookup |
| RepositoryLaws.AddedCreativeKept | internal/campaign/repository.go:195-204 | a found campaign has one creative more, the given one in every field, and equal to it if its ids are in the form in which they are read back |
| RepositoryLaws.CreatedCampaignKept | internal/campaign/repository.go:41-70 | a created campaign is found with every given value and the given rules, and no creatives |
| RepositoryLaws.CreateSucceedsIff | internal/campaign/repository.go:41-70 | a create succeeds if and only if all its ids are UUIDs and none of their values is taken or given twice; else it is an error |
| RepositoryLaws.UpdateSucceedsIff | internal/campaign/repository.go:180-193 | an update succeeds if and only if its campaign is stored, and is an error if and only if its id is no UUID |
| RepositoryLaws.AddSucceedsIff | internal/campaign/repository.go:195-204 | a creative is added if and only if its ids are UUIDs, its own is free and its campaign is stored |
| RepositoryLaws.BatchedElementIsLookup | internal/campaign/repository.go:72-178 | each element of the batched load is active and equals the simple load of its id |
| RepositoryLaws.BatchedHoldsActiveOnce | internal/campaign/repository.go:72-178 | a campaign is in the batched load, under the id as it is read back, if and only if the simple load finds it active under any spelling, and then once |
| RepositoryLaws.AssociationsConserved | internal/campaign/repository.go:104-147 | every creative and rule of an active campaign is attached exactly once, to its own campaign |
| RepositoryLaws.AnyRowOrder | internal/campaign/repository.go:104-147 | result sets in another order only rearrange each campaign's associations |
| RepositoryLaws.AnyTableOrder | internal/campaign/repository.go:72-178 | tables whose rows moved give the same active campaigns, rearranged, each with its associations rearranged |
| CampaignCache.RedisCache.CreateCampaign | internal/campaign/cache.go:30-40 | on success the list is dropped and the request's snapshot cached under the id as given; on failure nothing changes |
| CampaignCache.RedisCache.GetActiveCampaigns | internal/campaign/cache.go:42-64 | a cached list is returned as it is, else the current list is returned and cached |
| CampaignCache.RedisCache.GetCampaignByID | internal/campaign/cache.go:66-85 | a copy cached under this text is returned as it is, else the stored campaign is returned and cached under its own id |
| CampaignCache.RedisCache.UpdateCampaign | internal/campaign/cache.go:87-101 | on success the list is dropped and the stored campaign cached again under its own id, which may leave the given id's copy as it was |
| CampaignCache.RedisCache.AddCreative | internal/campaign/cache.go:103-116 | on success the campaign is cached again under its own id and the list dropped if the campaign is found |
| CampaignCache.CampaignHandler.HandleUpdateCampaign | internal/handler/campaign.go:84-123 | the campaign read through the cache, overlaid with the given fields, is written through the cache and answered; not found is answered if and only if the id is a UUID of no row and of no cached copy |
| CacheLaws.RunCoherent | internal/campaign/cache.go:30-116 | every sequential run with arbitrary expiry keeps the cached list current, and of the cached copies exactly the overtaken aliases wrong on status or budget |
| CacheLaws.ReadsAreFresh | internal/campaign/cache.go:42-85 | after any sequential run, under any spelling: list reads are current, reads by id find exactly the stored campaigns, with stored status and budget if and only if no overtaken alias is cached, and whole if and only if no unstorable snapshot is |
| CacheLaws.ReadsAreCached | internal/campaign/cache.go:42-85 | a read is cached: the same read again answers the same and changes nothing |
| CacheLaws.CanonicalRunsAreFresh | internal/campaign/cache.go:66-101 | in a run whose creates carry ids as they are read back, reads under any spelling return the stored status and budget and PATCHes under any spelling change only the given fields |
| CacheLaws.AliasReadIff | internal/campaign/cache.go:87-101 | after a create and a PATCH of the same id that id reads the stored status and budget if and only if it is in the form in which it is read back, or the PATCH changed nothing |
| CacheLaws.AliasPatchReverts | internal/handler/campaign.go:97-122 | a PATCH of the budget of a campaign created under an alias writes back the status from before an earlier PATCH |
| CacheLaws.UpperCaseRun | internal/handler/campaign.go:30-50 | such a run exists: created under an upper-case id, paused, then given a budget, the campaign is active |
| CacheLaws.CreatedIsStoredIff | internal/campaign/cache.go:30-40 | a created campaign is read back as stored if and only if the request has no creatives, all its rules carry its own id, and all its UUIDs are in the form in which they are read back |
| CacheLaws.CreatedSnapshotIsNotStored | internal/campaign/cache.go:36-38 | a request with creatives is read back with them, though the database holds none |
| CacheLaws.ForeignRuleIsNotStored | internal/campaign/repository.go:56-64 | a request without creatives, one of whose rules names another campaign, is read back so, though the rule is stored under the new one |
| CacheLaws.RunExact | internal/campaign/cache.go:30-116 | every sequential run keeps: of the cached copies exactly the unrefreshed unstorable snapshots differ from what the simple load returns |
| CacheLaws.WholeReadFreshIff | internal/campaign/cache.go:30-116 | after any sequential run a read by id returns the stored record, associations included, if and only if the copy cached under that text is not an unstorable snapshot since when no refresh or expiry came |
| CacheLaws.WholeReadsAreFresh | internal/campaign/cache.go:66-85 | every read by id returns the stored record in a run all of whose creates are storable |
| CacheLaws.PatchTouchesOnlyGivenFields | internal/handler/campaign.go:97-122 | after any sequential run a PATCH under any spelling succeeds, and changes the given fields of that campaign and nothing else if and only if its key is no overtaken alias, or that copy holds the stored values of the others |
| CacheLaws.PatchAnswersWhatIsStored | internal/handler/campaign.go:84-123 | after any run the campaign that a PATCH answers has the given fields as given and the others as read, and its status and budget are those now stored; with canonical creates the fields not given are those stored before |
| CacheLaws.WriteBackFrameIff | internal/handler/campaign.go:97-122 | writing back an overlaid copy, however and whenever read, changes only the given fields if and only if the copy holds the stored value of the others |
| CacheLaws.PatchFrameIff | internal/handler/campaign.go:97-122 | in any world an uninterrupted PATCH changes only the given fields if and only if the cached copy holds the stored value of the others |
| CacheLaws.InterruptedPatchFrameIff | internal/handler/campaign.go:97-122 | a PATCH between whose read and write any operations run changes only the given fields if and only if the copy it read holds the others' stored values; unless that was an overtaken alias, if and only if those are the same again |
| CacheLaws.InterleavedPatchesLoseTheFirst | internal/handler/campaign.go:97-122 | of two PATCHes, of any fields, that both read first, the first to write leaves no trace; the outcome is a serial one if and only if no field given by it alone changes |
| Staleness.BoundedStaleness | internal/campaign/cache.go:42-116 | with interleaved readers and writers and lost deletes a list was current at most 30 s plus the delay ago, and a campaign's status and budget at most 60 s plus the delay ago |
| Staleness.SnapshotIsCurrent | internal/campaign/cache.go:30-40 | the snapshot that a creator caches has the status and budget that its commit stored |
| Staleness.QuietReadsAreCurrent | internal/campaign/cache.go:42-85 | once the database has been quiet that long every value handed out is current |
| Staleness.StalenessBoundIff | internal/campaign/cache.go:42-116 | for the list and for every spelling of a campaign's id a staleness bound holds in every run if and only if it is at least the TTL plus the delay |
| Staleness.StalenessInMilliseconds | internal/campaign/cache.go:42-116 | the exact bounds in milliseconds: 30000 plus the delay for the list, 60000 plus the delay for a campaign |

## Left out

- HTTP, JSON, Kafka, Postgres and Redis clients, logging, metrics, tracing, configuration, identity, consent and authentication: outside the logic modelled here. JSON decoding of a cached value is taken to give back the value that was cached.
- The circuit breaker: its state machine is in a library. A client's fetch returns bids or fails, and is assumed to return.
- The DSP response parser (`internal/dsp/client.go`): a client's answer is an arbitrary list of bids.
- Targeting (`internal/campaign/service.go`): the campaigns matched for a request are an arbitrary list; its filter would only add easy members.
- Rounding: prices and `NUMERIC(10,4)` columns are reals; `%.4f` is modelled with ties to even on the real price. int64 overflow of `rps * 60` is not modelled.
- A stored record is taken to come back with the values that were written: Postgres rounds timestamps to microseconds and normalises JSON rule values, so a created snapshot may differ from the stored record in these besides what `CreatedIsStoredIff` says.
- Rows stay where they were inserted, so that a cached list can equal the current one. The queries name no order and Postgres may move an updated row: in the repository the two are rearrangements of each other (`AnyTableOrder`), and which creative is a campaign's first, which decides its internal bid, may change between loads.
- Which texts a UUID column accepts, and how it gives them back, follows Postgres's own description of the type.
- A repository read is one snapshot; the code issues three queries. Inside `CacheLaws` an operation, or the read or write half of a PATCH, is one step. The cache laws concern successful calls: a database or Redis failure inside an operation is modelled only in `Staleness` (lost stores and deletes) and `RateLimiter`.
- Redis removes an expired key once its time is past; the models let it go from that very millisecond on (`RateLimiter`) and let it be read up to and including it (`Staleness`). Redis losing keys it should keep (failover, memory pressure) is outside the rate limiter's bounds.
- Defaults filled in by `HandleCreateCampaign` (a new id, status `active`, creation time), and events' timestamps.
- Budget enforcement, pacing and frequency capping: not in the code. House-ad prices are not compared with the floor by the code, so no such claim is made.
- `ENABLE_MULTI_IMP`, `ENABLE_FIRST_PRICE` and the house-ad settings are fixed during one request.
