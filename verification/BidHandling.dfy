/** The bid handler after its inputs are in: internal bids, one auction an impression, response assembly,
    impression events and win notices. */
module BidHandling {
  import opened Sequences
  import opened Auction
  import opened Repository
  import opened WorkerPool

  datatype Banner = Banner(w: int, h: int)

  datatype Impression = Impression(id: string, banner: Option<Banner>, bidFloor: real)

  datatype Geo = Geo(country: string, city: string)

  datatype Device = Device(deviceType: int, geo: Option<Geo>)

  datatype Request = Request(id: string, imp: seq<Impression>, auctionType: int, device: Option<Device>)

  datatype ResponseBid = ResponseBid(id: string, impID: string, price: real, adID: string, crID: string,
                                     w: int, h: int, adMarkup: string, houseAd: bool)

  datatype SeatBid = SeatBid(seat: string, bids: seq<ResponseBid>)

  /** 204, or 200 with a bid response in US dollars. */
  datatype Reply = NoContent | OK(id: string, seatBids: seq<SeatBid>)

  datatype ImpressionEvent = ImpressionEvent(requestID: string, bidID: string, impressionID: string,
                                             campaignID: string, creativeID: string, winPrice: real,
                                             userID: string, geoCountry: string, geoCity: string,
                                             deviceType: int, floorPrice: real)

  datatype Notice = Notice(nurl: string, clearingPrice: real, requestID: string, impID: string)

  /** `price` and the rest are the configured house ad. */
  datatype HouseAds = HouseAds(enabled: bool, price: real, campaignID: string, creativeID: string, markup: string)

  datatype Settings = Settings(multiImp: bool, firstPrice: bool, house: HouseAds)

  const INTERNAL := "internal"
  const HOUSE_SEAT := "house-ad"
  const HOUSE_DEAL := "house-deal"

  // ---------------------------------------------------------------------------------------------
  // What each impression contributes
  // ---------------------------------------------------------------------------------------------

  /** A matched campaign bids when it has a creative and a positive price. */
  predicate Bids(c: Campaign) {
    c.creatives != [] && c.bidPriceCPM > 0.0
  }

  function InternalBid(c: Campaign): Bid
    requires c.creatives != []
  {
    Bid(c.id, PG, c.bidPriceCPM, c.creatives[0].id, INTERNAL, c.creatives[0].id, "", "")
  }

  function InternalBids(matched: seq<Campaign>): seq<Bid> {
    if matched == [] then []
    else
      var c := matched[|matched| - 1];
      InternalBids(matched[..|matched| - 1]) + if Bids(c) then [InternalBid(c)] else []
  }

  /** The DSP bids made for the impression, then every internal bid. */
  function BidsFor(impID: string, dspBids: seq<Bid>, internalBids: seq<Bid>): seq<Bid> {
    Filter((b: Bid) => b.impID == impID, dspBids) + internalBids
  }

  function ImpsToProcess(settings: Settings, req: Request): seq<Impression> {
    if !settings.multiImp && req.imp != [] then [req.imp[0]] else req.imp
  }

  /** A response bid with its seat, its impression event and, for an external win with a notice URL, its win
      notice. */
  datatype Slot = Slot(seat: string, bid: ResponseBid, event: ImpressionEvent, notice: Option<Notice>)

  function Width(imp: Impression): int {
    if imp.banner.Some? then imp.banner.value.w else 0
  }

  function Height(imp: Impression): int {
    if imp.banner.Some? then imp.banner.value.h else 0
  }

  function EventFor(req: Request, userID: string, impID: string, floor: real, bidID: string, creativeID: string,
                    winPrice: real, campaignID: string): ImpressionEvent
  {
    var geo := if req.device.Some? then req.device.value.geo else None;
    ImpressionEvent(req.id, bidID, impID, campaignID, creativeID, winPrice, userID,
                    if geo.Some? then geo.value.country else "",
                    if geo.Some? then geo.value.city else "",
                    if req.device.Some? then req.device.value.deviceType else 0,
                    floor)
  }

  function BidEvent(req: Request, userID: string, imp: Impression, bid: ResponseBid, campaignID: string)
    : ImpressionEvent
  {
    EventFor(req, userID, imp.id, imp.bidFloor, bid.id, bid.crID, bid.price, campaignID)
  }

  function WinBid(settings: Settings, req: Request, imp: Impression, winner: Bid, price: real): ResponseBid {
    ResponseBid(if settings.multiImp then "bid-" + req.id + ("-" + imp.id) else "bid-" + req.id,
                imp.id, price, winner.adID, winner.creativeID, Width(imp), Height(imp), "", false)
  }

  function HouseBid(settings: Settings, imp: Impression): ResponseBid {
    ResponseBid(if settings.multiImp then "house-bid-" + imp.id + ("-" + imp.id) else "house-bid-" + imp.id,
                imp.id, settings.house.price, settings.house.campaignID, settings.house.creativeID,
                Width(imp), Height(imp), settings.house.markup, true)
  }

  function WinSlot(settings: Settings, req: Request, userID: string, imp: Impression, winner: Bid, price: real): Slot {
    var bid := WinBid(settings, req, imp, winner, price);
    Slot(winner.dspName, bid, BidEvent(req, userID, imp, bid, winner.dealID),
         if winner.dspName != INTERNAL && winner.nurl != ""
         then Some(Notice(winner.nurl, price, req.id, imp.id)) else None)
  }

  function HouseSlot(settings: Settings, req: Request, userID: string, imp: Impression): Slot {
    var bid := HouseBid(settings, imp);
    Slot(HOUSE_SEAT, bid, BidEvent(req, userID, imp, bid, HOUSE_DEAL), None)
  }

  /** The auction's winner, else the house ad, else nothing. */
  function SlotOf(settings: Settings, req: Request, userID: string, imp: Impression, result: AuctionResult)
    : Option<Slot>
  {
    match result.winner
    case Some(winner) => Some(WinSlot(settings, req, userID, imp, winner, result.clearingPrice))
    case None => if settings.house.enabled then Some(HouseSlot(settings, req, userID, imp)) else None
  }

  function AsSeq<T>(o: Option<T>): seq<T> {
    match o case None => [] case Some(x) => [x]
  }

  function Slots(settings: Settings, req: Request, userID: string, imps: seq<Impression>, results: seq<AuctionResult>)
    : seq<Slot>
    requires |imps| == |results|
  {
    if imps == [] then []
    else
      var n := |imps| - 1;
      Slots(settings, req, userID, imps[..n], results[..n]) + AsSeq(SlotOf(settings, req, userID, imps[n], results[n]))
  }

  function EventsOf(slots: seq<Slot>): seq<ImpressionEvent> {
    seq(|slots|, i requires 0 <= i < |slots| => slots[i].event)
  }

  function BidsOf(slots: seq<Slot>): seq<ResponseBid> {
    seq(|slots|, i requires 0 <= i < |slots| => slots[i].bid)
  }

  function NoticesOf(slots: seq<Slot>): seq<Notice> {
    if slots == [] then []
    else NoticesOf(slots[..|slots| - 1]) + AsSeq(slots[|slots| - 1].notice)
  }

  /** `m[seat] = append(m[seat], bid)`. */
  function AppendBid(m: map<string, seq<ResponseBid>>, seat: string, bid: ResponseBid): map<string, seq<ResponseBid>> {
    m[seat := (if seat in m then m[seat] else []) + [bid]]
  }

  /** The bids of each seat, in impression order. */
  function SeatMap(slots: seq<Slot>): map<string, seq<ResponseBid>> {
    if slots == [] then map[]
    else
      var m, slot := SeatMap(slots[..|slots| - 1]), slots[|slots| - 1];
      AppendBid(m, slot.seat, slot.bid)
  }

  ghost predicate HasSeat(seatBids: seq<SeatBid>, seat: string) {
    exists k :: 0 <= k < |seatBids| && seatBids[k].seat == seat
  }

  /** The seats of a map, each once, in any order. */
  ghost predicate Lists(seatBids: seq<SeatBid>, m: map<string, seq<ResponseBid>>) {
    && (forall j, k :: 0 <= j < k < |seatBids| ==> seatBids[j].seat != seatBids[k].seat)
    && (forall k :: 0 <= k < |seatBids| ==> seatBids[k].seat in m && m[seatBids[k].seat] == seatBids[k].bids)
    && (forall seat :: seat in m ==> HasSeat(seatBids, seat))
  }

  ghost predicate Represents(reply: Reply, req: Request, slots: seq<Slot>) {
    if slots == [] then reply == NoContent
    else reply.OK? && reply.id == req.id && Lists(reply.seatBids, SeatMap(slots))
  }

  ghost predicate AuctionedAt(settings: Settings, req: Request, internalBids: seq<Bid>, dspBids: seq<Bid>,
                              imp: Impression, result: AuctionResult) {
    Settles(BidsFor(imp.id, dspBids, internalBids), imp.bidFloor,
            IsFirstPrice(req.auctionType, settings.firstPrice), result)
  }

  /** One settled auction for each impression. */
  ghost predicate AuctionedAll(settings: Settings, req: Request, internalBids: seq<Bid>, dspBids: seq<Bid>,
                               imps: seq<Impression>, results: seq<AuctionResult>) {
    && |results| == |imps|
    && forall i :: 0 <= i < |imps| ==> AuctionedAt(settings, req, internalBids, dspBids, imps[i], results[i])
  }

  ghost predicate Auctioned(settings: Settings, req: Request, matched: seq<Campaign>, dspBids: seq<Bid>,
                            results: seq<AuctionResult>) {
    AuctionedAll(settings, req, InternalBids(matched), dspBids, ImpsToProcess(settings, req), results)
  }

  // ---------------------------------------------------------------------------------------------
  // The code
  // ---------------------------------------------------------------------------------------------

  /** One bid for each campaign: guaranteed, of our own seat, at the campaign's price, for its first creative, and
      for any impression. */
  ghost predicate BidFor(b: Bid, c: Campaign) {
    && c.creatives != []
    && b.dealType == PG && b.dspName == "internal"
    && b.dealID == c.id && b.price == c.bidPriceCPM
    && b.adID == c.creatives[0].id && b.creativeID == c.creatives[0].id
    && b.impID == "" && b.nurl == ""
  }

  method MapInternalBids(matched: seq<Campaign>) returns (internalBids: seq<Bid>)
    ensures internalBids == InternalBids(matched)
    ensures var bidding := Filter((c: Campaign) => |c.creatives| > 0 && c.bidPriceCPM > 0.0, matched);
      && |internalBids| == |bidding|
      && forall k :: 0 <= k < |bidding| ==> BidFor(internalBids[k], bidding[k])
  {
    var p := (c: Campaign) => |c.creatives| > 0 && c.bidPriceCPM > 0.0;
    internalBids := [];
    for i := 0 to |matched|
      invariant internalBids == InternalBids(matched[..i])
      invariant |internalBids| == |Filter(p, matched[..i])|
      invariant forall k :: 0 <= k < |internalBids| ==> BidFor(internalBids[k], Filter(p, matched[..i])[k])
    {
      var camp := matched[i];
      assert matched[..i + 1][..i] == matched[..i];
      if |camp.creatives| == 0 {
        continue;
      }
      if camp.bidPriceCPM <= 0.0 {
        continue;
      }
      var cr := camp.creatives[0];
      internalBids := internalBids + [Bid(camp.id, PG, camp.bidPriceCPM, cr.id, INTERNAL, cr.id, "", "")];
    }
    assert matched[..|matched|] == matched;
  }

  /** The bids that compete for an impression, with their multiplicities: those that DSPs made for it, and all
      internal ones. */
  ghost predicate Pooled(pool: seq<Bid>, impID: string, dspBids: seq<Bid>, internalBids: seq<Bid>) {
    forall b :: multiset(pool)[b] == (if b.impID == impID then multiset(dspBids)[b] else 0) + multiset(internalBids)[b]
  }

  lemma BidsForPooled(impID: string, dspBids: seq<Bid>, internalBids: seq<Bid>)
    ensures Pooled(BidsFor(impID, dspBids, internalBids), impID, dspBids, internalBids)
  {
    forall b
      ensures multiset(BidsFor(impID, dspBids, internalBids))[b]
           == (if b.impID == impID then multiset(dspBids)[b] else 0) + multiset(internalBids)[b]
    {
      FilterMultiplicity((b: Bid) => b.impID == impID, dspBids, b);
    }
  }

  /** An auction held for an impression: among the bids that compete for it, at its floor, at the winner's own price
      exactly when the feature is on and the request asks for it; sold to a DSP's bid for it, or to an internal one. */
  ghost predicate HeldAuction(settings: Settings, req: Request, imp: Impression, dspBids: seq<Bid>,
                              internalBids: seq<Bid>, pool: seq<Bid>, result: AuctionResult) {
    && Pooled(pool, imp.id, dspBids, internalBids)
    && Settles(pool, imp.bidFloor, settings.firstPrice && req.auctionType == 1, result)
    && (result.winner.Some? ==>
          || (result.winner.value in dspBids && result.winner.value.impID == imp.id)
          || result.winner.value in internalBids)
  }

  ghost predicate HeldFor(settings: Settings, req: Request, imp: Impression, dspBids: seq<Bid>, internalBids: seq<Bid>,
                          result: AuctionResult) {
    exists pool :: HeldAuction(settings, req, imp, dspBids, internalBids, pool, result)
  }

  lemma AuctionedIsHeld(settings: Settings, req: Request, imp: Impression, dspBids: seq<Bid>, internalBids: seq<Bid>,
                        result: AuctionResult)
    requires AuctionedAt(settings, req, internalBids, dspBids, imp, result)
    ensures HeldFor(settings, req, imp, dspBids, internalBids, result)
  {
    var pool := BidsFor(imp.id, dspBids, internalBids);
    BidsForPooled(imp.id, dspBids, internalBids);
    SettledWinner(pool, imp.bidFloor, IsFirstPrice(req.auctionType, settings.firstPrice), result);
    if result.winner.Some? {
      FilterMultiplicity((b: Bid) => b.impID == imp.id, dspBids, result.winner.value);
    }
    assert HeldAuction(settings, req, imp, dspBids, internalBids, pool, result);
  }

  /** One such auction for each impression or, with the feature off, for the first one only. */
  ghost predicate AllHeld(settings: Settings, req: Request, dspBids: seq<Bid>, internalBids: seq<Bid>,
                          results: seq<AuctionResult>) {
    && |results| == (if settings.multiImp || |req.imp| == 0 then |req.imp| else 1)
    && forall i :: 0 <= i < |results| ==> HeldFor(settings, req, req.imp[i], dspBids, internalBids, results[i])
  }

  lemma AuctionedAreHeld(settings: Settings, req: Request, matched: seq<Campaign>, dspBids: seq<Bid>,
                         results: seq<AuctionResult>)
    requires Auctioned(settings, req, matched, dspBids, results)
    ensures AllHeld(settings, req, dspBids, InternalBids(matched), results)
  {
    forall i | 0 <= i < |results|
      ensures HeldFor(settings, req, req.imp[i], dspBids, InternalBids(matched), results[i])
    {
      assert ImpsToProcess(settings, req)[i] == req.imp[i];
      assert AuctionedAt(settings, req, InternalBids(matched), dspBids, ImpsToProcess(settings, req)[i], results[i]);
      AuctionedIsHeld(settings, req, req.imp[i], dspBids, InternalBids(matched), results[i]);
    }
  }

  method CollectBids(impID: string, dspBids: seq<Bid>, internalBids: seq<Bid>) returns (bidsForImp: seq<Bid>)
    ensures bidsForImp == BidsFor(impID, dspBids, internalBids)
    ensures Pooled(bidsForImp, impID, dspBids, internalBids)
  {
    var p := (b: Bid) => b.impID == impID;
    bidsForImp := [];
    for i := 0 to |dspBids|
      invariant bidsForImp == Filter(p, dspBids[..i])
    {
      assert dspBids[..i + 1][..i] == dspBids[..i];
      if dspBids[i].impID == impID {
        bidsForImp := bidsForImp + [dspBids[i]];
      }
    }
    assert dspBids[..|dspBids|] == dspBids;
    bidsForImp := bidsForImp + internalBids;
    BidsForPooled(impID, dspBids, internalBids);
  }

  lemma HasSeatSnoc(seatBids: seq<SeatBid>, last: SeatBid)
    ensures HasSeat(seatBids + [last], last.seat)
    ensures forall seat :: HasSeat(seatBids, seat) ==> HasSeat(seatBids + [last], seat)
  {
    assert (seatBids + [last])[|seatBids|] == last;
    forall seat | HasSeat(seatBids, seat) ensures HasSeat(seatBids + [last], seat) {
      var k :| 0 <= k < |seatBids| && seatBids[k].seat == seat;
      assert (seatBids + [last])[k].seat == seat;
    }
  }

  /** Map iteration: any order. */
  method ListSeats(seatBidsMap: map<string, seq<ResponseBid>>) returns (seatBids: seq<SeatBid>)
    ensures Lists(seatBids, seatBidsMap)
  {
    seatBids := [];
    var seats := seatBidsMap.Keys;
    while seats != {}
      invariant seats <= seatBidsMap.Keys
      invariant forall j, k :: 0 <= j < k < |seatBids| ==> seatBids[j].seat != seatBids[k].seat
      invariant forall k :: 0 <= k < |seatBids| ==>
        && seatBids[k].seat in seatBidsMap
        && seatBids[k].seat !in seats
        && seatBidsMap[seatBids[k].seat] == seatBids[k].bids
      invariant forall seat :: seat in seatBidsMap ==> seat in seats || HasSeat(seatBids, seat)
      decreases |seats|
    {
      var seat :| seat in seats;
      HasSeatSnoc(seatBids, SeatBid(seat, seatBidsMap[seat]));
      seatBids := seatBids + [SeatBid(seat, seatBidsMap[seat])];
      seats := seats - {seat};
    }
  }

  lemma SlotsSnoc(settings: Settings, req: Request, userID: string, imps: seq<Impression>, i: nat,
                  results: seq<AuctionResult>, result: AuctionResult)
    requires i < |imps| && |results| == i
    ensures Slots(settings, req, userID, imps[..i + 1], results + [result])
         == Slots(settings, req, userID, imps[..i], results) + AsSeq(SlotOf(settings, req, userID, imps[i], result))
  {
    assert imps[..i + 1][..i] == imps[..i] && (results + [result])[..i] == results;
  }

  lemma SlotRecorded(slots: seq<Slot>, slot: Slot)
    ensures EventsOf(slots + [slot]) == EventsOf(slots) + [slot.event]
    ensures NoticesOf(slots + [slot]) == NoticesOf(slots) + AsSeq(slot.notice)
    ensures SeatMap(slots + [slot]) == AppendBid(SeatMap(slots), slot.seat, slot.bid)
  {
    assert (slots + [slot])[..|slots|] == slots;
  }

  lemma PrefixRest<T>(earlier: seq<T>, a: seq<T>, b: seq<T>)
    requires a <= b
    ensures earlier + a + b[|a|..] == earlier + b
  {
    assert b == a + b[|a|..];
  }

  lemma AuctionedSnoc(settings: Settings, req: Request, internalBids: seq<Bid>, dspBids: seq<Bid>,
                      imps: seq<Impression>, i: nat, results: seq<AuctionResult>, result: AuctionResult)
    requires i < |imps| && AuctionedAll(settings, req, internalBids, dspBids, imps[..i], results)
    requires AuctionedAt(settings, req, internalBids, dspBids, imps[i], result)
    ensures AuctionedAll(settings, req, internalBids, dspBids, imps[..i + 1], results + [result])
  {
    forall k | 0 <= k < i + 1
      ensures AuctionedAt(settings, req, internalBids, dspBids, imps[..i + 1][k], (results + [result])[k])
    {
      if k < i {
        assert imps[..i + 1][k] == imps[..i][k];
      }
    }
  }

  lemma SeatMapEmpty(slots: seq<Slot>)
    ensures |SeatMap(slots)| == 0 <==> slots == []
  {
    if slots != [] {
      assert slots[|slots| - 1].seat in SeatMap(slots);
    }
  }

  /** The device's type, and where it is if that is known. */
  ghost predicate DeviceData(event: ImpressionEvent, device: Option<Device>) {
    match device
    case None => event.deviceType == 0 && event.geoCountry == "" && event.geoCity == ""
    case Some(d) =>
      && event.deviceType == d.deviceType
      && match d.geo
         case None => event.geoCountry == "" && event.geoCity == ""
         case Some(geo) => event.geoCountry == geo.country && event.geoCity == geo.city
  }

  class BidHandler {
    const settings: Settings
    const eventQueue: BoundedQueue<ImpressionEvent>
    const nurlQueue: BoundedQueue<Notice>

    /** Two queues, not one. */
    ghost predicate Separate() {
      eventQueue as object != nurlQueue as object
    }

    constructor (settings: Settings)
      ensures this.settings == settings && Separate()
      ensures fresh(eventQueue) && eventQueue.Valid() && eventQueue.capacity == 10000
      ensures fresh(nurlQueue) && nurlQueue.Valid() && nurlQueue.capacity == 1000
      ensures eventQueue.items == eventQueue.offered == [] && nurlQueue.items == nurlQueue.offered == []
    {
      this.settings := settings;
      this.eventQueue := new BoundedQueue(EVENT_CAPACITY);
      this.nurlQueue := new BoundedQueue(NOTICE_CAPACITY);
    }

    method PublishImpressionEvent(req: Request, bidID: string, impID: string, dealID: string, creativeID: string,
                                  winPrice: real, userID: string, floor: real)
      returns (ghost event: ImpressionEvent)
      requires eventQueue.Valid()
      modifies eventQueue
      ensures eventQueue.Valid() && eventQueue.offered == old(eventQueue.offered) + [event]
      ensures event == EventFor(req, userID, impID, floor, bidID, creativeID, winPrice, dealID)
      ensures event.requestID == req.id && event.bidID == bidID && event.impressionID == impID
      ensures event.campaignID == dealID && event.creativeID == creativeID
      ensures event.winPrice == winPrice && event.floorPrice == floor && event.userID == userID
      ensures DeviceData(event, req.device)
    {
      var deviceType, geoCountry, geoCity := 0, "", "";
      if req.device.Some? {
        deviceType := req.device.value.deviceType;
        if req.device.value.geo.Some? {
          geoCountry := req.device.value.geo.value.country;
          geoCity := req.device.value.geo.value.city;
        }
      }
      var e := ImpressionEvent(req.id, bidID, impID, dealID, creativeID, winPrice, userID,
                               geoCountry, geoCity, deviceType, floor);
      event := e;
      var _ := eventQueue.Offer(e);
    }

    method FireNURL(nurl: string, clearingPrice: real, requestID: string, impID: string)
      requires nurlQueue.Valid()
      modifies nurlQueue
      ensures nurlQueue.Valid()
      ensures nurlQueue.offered == old(nurlQueue.offered) + [Notice(nurl, clearingPrice, requestID, impID)]
    {
      var _ := nurlQueue.Offer(Notice(nurl, clearingPrice, requestID, impID));
    }

    /** An auction win: the bid joins its seat, its event is offered, and an external winner's notice. */
    method ServeWin(req: Request, userID: string, imp: Impression, winner: Bid, winPrice: real,
                    bannerW: int, bannerH: int)
      returns (bid: ResponseBid, ghost slot: Slot)
      requires eventQueue.Valid() && nurlQueue.Valid() && Separate()
      requires bannerW == Width(imp) && bannerH == Height(imp)
      modifies eventQueue, nurlQueue
      ensures eventQueue.Valid() && nurlQueue.Valid()
      ensures slot == WinSlot(settings, req, userID, imp, winner, winPrice) && bid == slot.bid
      ensures eventQueue.offered == old(eventQueue.offered) + [slot.event]
      ensures nurlQueue.offered == old(nurlQueue.offered) + AsSeq(slot.notice)
      ensures slot.seat == winner.dspName && !bid.houseAd
      ensures bid.id == if settings.multiImp then "bid-" + req.id + ("-" + imp.id) else "bid-" + req.id
      ensures bid.impID == imp.id && bid.price == winPrice && bid.adID == winner.adID && bid.crID == winner.creativeID
      ensures bid.w == bannerW && bid.h == bannerH
      ensures nurlQueue.offered == old(nurlQueue.offered)
        + if winner.dspName != "internal" && winner.nurl != ""
          then [Notice(winner.nurl, winPrice, req.id, imp.id)] else []
    {
      var bidID := "bid-" + req.id;
      if settings.multiImp {
        bidID := bidID + ("-" + imp.id);
      }
      bid := ResponseBid(bidID, imp.id, winPrice, winner.adID, winner.creativeID, bannerW, bannerH, "", false);
      ghost var event := PublishImpressionEvent(req, bidID, imp.id, winner.dealID, winner.creativeID,
                                                winPrice, userID, imp.bidFloor);
      if winner.dspName != INTERNAL && winner.nurl != "" {
        FireNURL(winner.nurl, winPrice, req.id, imp.id);
      }
      slot := WinSlot(settings, req, userID, imp, winner, winPrice);
    }

    /** The fallback: a configured house ad. */
    method ServeHouseAd(req: Request, userID: string, imp: Impression, bannerW: int, bannerH: int)
      returns (houseBid: ResponseBid, ghost slot: Slot)
      requires eventQueue.Valid() && bannerW == Width(imp) && bannerH == Height(imp)
      modifies eventQueue
      ensures eventQueue.Valid()
      ensures slot == HouseSlot(settings, req, userID, imp) && houseBid == slot.bid
      ensures eventQueue.offered == old(eventQueue.offered) + [slot.event]
      ensures slot.seat == "house-ad" && slot.event.campaignID == "house-deal" && houseBid.houseAd
      ensures houseBid.id == if settings.multiImp then "house-bid-" + imp.id + ("-" + imp.id) else "house-bid-" + imp.id
      ensures houseBid.impID == imp.id && houseBid.price == settings.house.price
      ensures houseBid.adID == settings.house.campaignID && houseBid.crID == settings.house.creativeID
      ensures houseBid.w == bannerW && houseBid.h == bannerH && houseBid.adMarkup == settings.house.markup
    {
      var bidID := "house-bid-" + imp.id;
      if settings.multiImp {
        bidID := bidID + ("-" + imp.id);
      }
      houseBid := ResponseBid(bidID, imp.id, settings.house.price, settings.house.campaignID,
                              settings.house.creativeID, bannerW, bannerH, settings.house.markup, true);
      ghost var event := PublishImpressionEvent(req, bidID, imp.id, HOUSE_DEAL, houseBid.crID,
                                                houseBid.price, userID, imp.bidFloor);
      slot := HouseSlot(settings, req, userID, imp);
    }

    /** The part of the impression loop that follows the auction. */
    method ServeImpression(req: Request, userID: string, imp: Impression, result: AuctionResult,
                           seatBidsMap: map<string, seq<ResponseBid>>)
      returns (seatBidsMap': map<string, seq<ResponseBid>>, ghost slot: Option<Slot>)
      requires eventQueue.Valid() && nurlQueue.Valid() && Separate()
      modifies eventQueue, nurlQueue
      ensures eventQueue.Valid() && nurlQueue.Valid()
      ensures slot == SlotOf(settings, req, userID, imp, result)
      ensures seatBidsMap'
           == if slot.Some? then AppendBid(seatBidsMap, slot.value.seat, slot.value.bid) else seatBidsMap
      ensures eventQueue.offered == old(eventQueue.offered) + if slot.Some? then [slot.value.event] else []
      ensures nurlQueue.offered == old(nurlQueue.offered) + if slot.Some? then AsSeq(slot.value.notice) else []
    {
      var bannerW, bannerH := 0, 0;
      if imp.banner.Some? {
        bannerW, bannerH := imp.banner.value.w, imp.banner.value.h;
      }
      seatBidsMap', slot := seatBidsMap, None;
      if result.winner.Some? {
        var winner := result.winner.value;
        var bid;
        ghost var served;
        bid, served := ServeWin(req, userID, imp, winner, result.clearingPrice, bannerW, bannerH);
        seatBidsMap', slot := AppendBid(seatBidsMap, winner.dspName, bid), Some(served);
      } else if settings.house.enabled {
        var houseBid;
        ghost var served;
        houseBid, served := ServeHouseAd(req, userID, imp, bannerW, bannerH);
        seatBidsMap', slot := AppendBid(seatBidsMap, HOUSE_SEAT, houseBid), Some(served);
      }
    }

    /** One turn of the impression loop. */
    method ServeNext(req: Request, userID: string, internalBids: seq<Bid>, dspBids: seq<Bid>, imp: Impression,
                     seatBidsMap: map<string, seq<ResponseBid>>, ghost slots: seq<Slot>)
      returns (seatBidsMap': map<string, seq<ResponseBid>>, ghost result: AuctionResult, ghost slots': seq<Slot>)
      requires eventQueue.Valid() && nurlQueue.Valid() && Separate() && seatBidsMap == SeatMap(slots)
      modifies eventQueue, nurlQueue
      ensures eventQueue.Valid() && nurlQueue.Valid() && seatBidsMap' == SeatMap(slots')
      ensures AuctionedAt(settings, req, internalBids, dspBids, imp, result)
      ensures slots' == slots + AsSeq(SlotOf(settings, req, userID, imp, result))
      ensures |EventsOf(slots)| <= |EventsOf(slots')| && |NoticesOf(slots)| <= |NoticesOf(slots')|
      ensures eventQueue.offered == old(eventQueue.offered) + EventsOf(slots')[|EventsOf(slots)|..]
      ensures nurlQueue.offered == old(nurlQueue.offered) + NoticesOf(slots')[|NoticesOf(slots)|..]
      ensures EventsOf(slots) <= EventsOf(slots') && NoticesOf(slots) <= NoticesOf(slots')
    {
      var bidsForImp := CollectBids(imp.id, dspBids, internalBids);
      var outcome := RunAuction(bidsForImp, imp.bidFloor, req.auctionType, settings.firstPrice);
      result := outcome;
      ghost var slot;
      seatBidsMap', slot := ServeImpression(req, userID, imp, outcome, seatBidsMap);
      if slot.Some? {
        SlotRecorded(slots, slot.value);
      } else {
        assert slots + AsSeq(slot) == slots;
      }
      slots' := slots + AsSeq(slot);
    }

    /** The impression loop. */
    method ServeAll(req: Request, userID: string, internalBids: seq<Bid>, dspBids: seq<Bid>, imps: seq<Impression>)
      returns (seatBidsMap: map<string, seq<ResponseBid>>, ghost results: seq<AuctionResult>, ghost slots: seq<Slot>)
      requires eventQueue.Valid() && nurlQueue.Valid() && Separate()
      modifies eventQueue, nurlQueue
      ensures eventQueue.Valid() && nurlQueue.Valid()
      ensures AuctionedAll(settings, req, internalBids, dspBids, imps, results)
      ensures slots == Slots(settings, req, userID, imps, results) && seatBidsMap == SeatMap(slots)
      ensures eventQueue.offered == old(eventQueue.offered) + EventsOf(slots)
      ensures nurlQueue.offered == old(nurlQueue.offered) + NoticesOf(slots)
    {
      seatBidsMap := map[];
      results, slots := [], [];
      for i := 0 to |imps|
        invariant eventQueue.Valid() && nurlQueue.Valid()
        invariant AuctionedAll(settings, req, internalBids, dspBids, imps[..i], results)
        invariant slots == Slots(settings, req, userID, imps[..i], results) && seatBidsMap == SeatMap(slots)
        invariant eventQueue.offered == old(eventQueue.offered) + EventsOf(slots)
        invariant nurlQueue.offered == old(nurlQueue.offered) + NoticesOf(slots)
      {
        ghost var result, before := AuctionResult(None, 0.0, 0, 0, ""), slots;
        seatBidsMap, result, slots := ServeNext(req, userID, internalBids, dspBids, imps[i], seatBidsMap, slots);
        PrefixRest(old(eventQueue.offered), EventsOf(before), EventsOf(slots));
        PrefixRest(old(nurlQueue.offered), NoticesOf(before), NoticesOf(slots));
        AuctionedSnoc(settings, req, internalBids, dspBids, imps, i, results, result);
        SlotsSnoc(settings, req, userID, imps, i, results, result);
        results := results + [result];
      }
      assert imps[..|imps|] == imps;
    }

    /** Runs one auction for each processed impression, answers with their bids grouped by seat, and offers
        one event a bid and one notice an external win, in impression order. */
    method HandleBid(req: Request, userID: string, matched: seq<Campaign>, dspBids: seq<Bid>)
      returns (reply: Reply, ghost results: seq<AuctionResult>)
      requires eventQueue.Valid() && nurlQueue.Valid() && Separate()
      modifies eventQueue, nurlQueue
      ensures eventQueue.Valid() && nurlQueue.Valid()
      ensures Auctioned(settings, req, matched, dspBids, results)
      ensures var slots := Slots(settings, req, userID, ImpsToProcess(settings, req), results);
        && Represents(reply, req, slots)
        && eventQueue.offered == old(eventQueue.offered) + EventsOf(slots)
        && nurlQueue.offered == old(nurlQueue.offered) + NoticesOf(slots)
      ensures reply.OK? ==> reply.id == req.id
      ensures AllHeld(settings, req, dspBids, InternalBids(matched), results)
    {
      var internalBids := MapInternalBids(matched);
      var impsToProcess := req.imp;
      if !settings.multiImp && |req.imp| > 0 {
        impsToProcess := [req.imp[0]];
      }
      var seatBidsMap;
      ghost var slots;
      seatBidsMap, results, slots := ServeAll(req, userID, internalBids, dspBids, impsToProcess);
      AuctionedAreHeld(settings, req, matched, dspBids, results);
      SeatMapEmpty(slots);
      if |seatBidsMap| == 0 {
        return NoContent, results;
      }
      var seatBids := ListSeats(seatBidsMap);
      reply := OK(req.id, seatBids);
    }
  }
}
