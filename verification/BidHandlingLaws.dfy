/** What a bid response contains, and that it does not depend on network timing. */
module BidHandlingLaws {
  import opened Sequences
  import opened Auction
  import opened AuctionLaws
  import opened Fanout
  import opened FanoutLaws
  import opened Repository
  import opened BidHandling
  import WorkerPool
  import Text
  import WinNotice

  // ---------------------------------------------------------------------------------------------
  // Nothing lost, nothing added
  // ---------------------------------------------------------------------------------------------

  function AllBids(seatBids: seq<SeatBid>): seq<ResponseBid> {
    if seatBids == [] then [] else AllBids(seatBids[..|seatBids| - 1]) + seatBids[|seatBids| - 1].bids
  }

  lemma {:induction false} AllBidsAppend(a: seq<SeatBid>, b: seq<SeatBid>)
    ensures AllBids(a + b) == AllBids(a) + AllBids(b)
  {
    if b == [] {
      assert a + b == a;
    } else {
      assert (a + b)[..|a + b| - 1] == a + b[..|b| - 1];
      AllBidsAppend(a, b[..|b| - 1]);
    }
  }

  lemma AllBidsAround(l: seq<SeatBid>, seat: SeatBid, r: seq<SeatBid>)
    ensures AllBids(l + [seat] + r) == AllBids(l) + seat.bids + AllBids(r)
  {
    AllBidsAppend(l + [seat], r);
    assert (l + [seat])[..|l|] == l;
  }

  lemma OneMoreBetween<T>(l: seq<T>, x: T, r: seq<T>)
    ensures multiset(l + [x] + r) == multiset(l + r) + multiset{x}
  {}

  lemma OneMoreAmong<T>(l: seq<T>, mid: seq<T>, x: T, r: seq<T>)
    ensures multiset(l + (mid + [x]) + r) == multiset(l + mid + r) + multiset{x}
  {}

  /** One bid less in a seat is one bid less in all. */
  lemma SeatShortened(seatBids: seq<SeatBid>, k: nat, bids: seq<ResponseBid>, bid: ResponseBid)
    requires k < |seatBids| && seatBids[k].bids == bids + [bid]
    ensures multiset(AllBids(seatBids))
         == multiset(AllBids(seatBids[k := SeatBid(seatBids[k].seat, bids)])) + multiset{bid}
  {
    var l, less, r := seatBids[..k], SeatBid(seatBids[k].seat, bids), seatBids[k + 1..];
    assert seatBids == l + [seatBids[k]] + r && seatBids[k := less] == l + [less] + r;
    AllBidsAround(l, seatBids[k], r);
    AllBidsAround(l, less, r);
    OneMoreAmong(AllBids(l), bids, bid, AllBids(r));
  }

  /** A seat of one bid less is one bid less in all. */
  lemma SeatClosed(seatBids: seq<SeatBid>, k: nat, bid: ResponseBid)
    requires k < |seatBids| && seatBids[k].bids == [bid]
    ensures multiset(AllBids(seatBids)) == multiset(AllBids(seatBids[..k] + seatBids[k + 1..])) + multiset{bid}
  {
    var l, r := seatBids[..k], seatBids[k + 1..];
    assert seatBids == l + [seatBids[k]] + r;
    AllBidsAround(l, seatBids[k], r);
    AllBidsAppend(l, r);
    OneMoreBetween(AllBids(l), bid, AllBids(r));
  }

  /** Two listings of maps that differ in one seat. */
  lemma ListsWithout(seatBids: seq<SeatBid>, m: map<string, seq<ResponseBid>>, k: nat)
    requires Lists(seatBids, m) && k < |seatBids|
    ensures Lists(seatBids[..k] + seatBids[k + 1..], m - {seatBids[k].seat})
  {
    var seat := seatBids[k].seat;
    var rest := seatBids[..k] + seatBids[k + 1..];
    forall other | other in m - {seat} ensures HasSeat(rest, other) {
      assert HasSeat(seatBids, other);
      var j :| 0 <= j < |seatBids| && seatBids[j].seat == other;
      assert rest[if j < k then j else j - 1] == seatBids[j];
    }
  }

  lemma ListsReplaced(seatBids: seq<SeatBid>, m: map<string, seq<ResponseBid>>, k: nat, bids: seq<ResponseBid>)
    requires Lists(seatBids, m) && k < |seatBids|
    ensures Lists(seatBids[k := SeatBid(seatBids[k].seat, bids)], m[seatBids[k].seat := bids])
  {
    var after := seatBids[k := SeatBid(seatBids[k].seat, bids)];
    assert forall j :: 0 <= j < |seatBids| ==> after[j].seat == seatBids[j].seat;
    forall seat | seat in m ensures HasSeat(after, seat) {
      assert HasSeat(seatBids, seat);
      var j :| 0 <= j < |seatBids| && seatBids[j].seat == seat;
      assert after[j].seat == seat;
    }
  }

  lemma SeatListed(seatBids: seq<SeatBid>, m: map<string, seq<ResponseBid>>, seat: string) returns (k: nat)
    requires Lists(seatBids, m) && seat in m
    ensures k < |seatBids| && seatBids[k] == SeatBid(seat, m[seat])
  {
    assert HasSeat(seatBids, seat);
    k :| k < |seatBids| && seatBids[k].seat == seat;
  }

  /** A listing without the bid that was appended last. */
  lemma Unappended(seatBids: seq<SeatBid>, m: map<string, seq<ResponseBid>>, seat: string, bid: ResponseBid)
    returns (shorter: seq<SeatBid>)
    requires Lists(seatBids, AppendBid(m, seat, bid))
    ensures Lists(shorter, m)
    ensures multiset(AllBids(seatBids)) == multiset(AllBids(shorter)) + multiset{bid}
  {
    var after := AppendBid(m, seat, bid);
    var k := SeatListed(seatBids, after, seat);
    if seat in m {
      ListsReplaced(seatBids, after, k, m[seat]);
      assert after[seat := m[seat]] == m;
      SeatShortened(seatBids, k, m[seat], bid);
      shorter := seatBids[k := SeatBid(seat, m[seat])];
    } else {
      ListsWithout(seatBids, after, k);
      assert after - {seat} == m;
      SeatClosed(seatBids, k, bid);
      shorter := seatBids[..k] + seatBids[k + 1..];
    }
  }

  lemma BidsOfLast(slots: seq<Slot>)
    requires slots != []
    ensures multiset(BidsOf(slots)) == multiset(BidsOf(slots[..|slots| - 1])) + multiset{slots[|slots| - 1].bid}
  {
    assert BidsOf(slots) == BidsOf(slots[..|slots| - 1]) + [slots[|slots| - 1].bid];
  }

  /** Whatever order the seats are listed in, the listed bids are the slots' bids. */
  lemma {:induction false} ListedBidsAreSlots(slots: seq<Slot>, seatBids: seq<SeatBid>)
    requires Lists(seatBids, SeatMap(slots))
    ensures Permutation(AllBids(seatBids), BidsOf(slots))
  {
    if slots != [] {
      var init, slot := slots[..|slots| - 1], slots[|slots| - 1];
      var shorter := Unappended(seatBids, SeatMap(init), slot.seat, slot.bid);
      ListedBidsAreSlots(init, shorter);
      BidsOfLast(slots);
    }
  }

  /** The bids of a reply. */
  function ReplyBids(reply: Reply): seq<ResponseBid> {
    match reply case NoContent => [] case OK(_, seatBids) => AllBids(seatBids)
  }

  /** A reply's bids are a rearrangement of the impressions' outcomes; it is empty-handed (204) exactly when no
      impression has one. */
  lemma ReplyConserves(reply: Reply, req: Request, slots: seq<Slot>)
    requires Represents(reply, req, slots)
    ensures Permutation(ReplyBids(reply), BidsOf(slots))
    ensures reply == NoContent <==> slots == []
  {
    if slots != [] {
      ListedBidsAreSlots(slots, reply.seatBids);
    }
  }

  lemma BidsOfSnoc(slots: seq<Slot>, slot: Slot)
    ensures BidsOf(slots + [slot]) == BidsOf(slots) + [slot.bid]
  {}

  /** Each seat is listed with the bids of its own slots, in impression order. */
  lemma {:induction false} SeatsHoldTheirBids(slots: seq<Slot>, seat: string)
    ensures seat in SeatMap(slots) <==> exists i :: 0 <= i < |slots| && slots[i].seat == seat
    ensures seat in SeatMap(slots) ==> SeatMap(slots)[seat] == BidsOf(Filter((s: Slot) => s.seat == seat, slots))
    ensures seat !in SeatMap(slots) ==> Filter((s: Slot) => s.seat == seat, slots) == []
  {
    if slots != [] {
      var init, last := slots[..|slots| - 1], slots[|slots| - 1];
      SeatsHoldTheirBids(init, seat);
      var p := (s: Slot) => s.seat == seat;
      assert seat in SeatMap(init) ==> exists i :: 0 <= i < |slots| && slots[i].seat == seat by {
        if seat in SeatMap(init) {
          var i :| 0 <= i < |init| && init[i].seat == seat;
          assert slots[i].seat == seat;
        }
      }
      BidsOfSnoc(Filter(p, init), last);
    }
  }

  lemma ReplySeats(reply: Reply, req: Request, slots: seq<Slot>, k: nat)
    requires Represents(reply, req, slots) && reply.OK? && k < |reply.seatBids|
    ensures reply.seatBids[k].bids == BidsOf(Filter((s: Slot) => s.seat == reply.seatBids[k].seat, slots))
    ensures reply.seatBids[k].bids != []
  {
    SeatsHoldTheirBids(slots, reply.seatBids[k].seat);
    var i :| 0 <= i < |slots| && slots[i].seat == reply.seatBids[k].seat;
    assert slots[i] in slots;
    FilterMultiplicity((s: Slot) => s.seat == reply.seatBids[k].seat, slots, slots[i]);
  }

  /** What a win contributes: the winner's ad and creative at the clearing price and the banner's size, in the
      winner's seat; an event that says so; and a notice exactly when an outside DSP gave a URL. */
  lemma WinContributes(settings: Settings, req: Request, userID: string, imp: Impression, result: AuctionResult)
    requires result.winner.Some?
    ensures SlotOf(settings, req, userID, imp, result).Some?
    ensures var slot, w := SlotOf(settings, req, userID, imp, result).value, result.winner.value;
      && slot.seat == w.dspName && !slot.bid.houseAd
      && slot.bid.impID == imp.id && slot.bid.price == result.clearingPrice
      && slot.bid.adID == w.adID && slot.bid.crID == w.creativeID
      && (imp.banner.Some? ==> slot.bid.w == imp.banner.value.w && slot.bid.h == imp.banner.value.h)
      && (imp.banner.None? ==> slot.bid.w == 0 && slot.bid.h == 0)
      && slot.event.campaignID == w.dealID && slot.event.floorPrice == imp.bidFloor && slot.event.userID == userID
      && DeviceData(slot.event, req.device)
      && slot.notice == (if w.dspName != "internal" && w.nurl != ""
                         then Some(Notice(w.nurl, result.clearingPrice, req.id, imp.id)) else None)
  {}

  /** Without a winner the configured house ad, with its event and no notice, if house ads are on; else nothing. */
  lemma HouseContributes(settings: Settings, req: Request, userID: string, imp: Impression, result: AuctionResult)
    requires result.winner.None?
    ensures SlotOf(settings, req, userID, imp, result).Some? <==> settings.house.enabled
    ensures settings.house.enabled ==>
      var slot := SlotOf(settings, req, userID, imp, result).value;
      && slot.seat == "house-ad" && slot.bid.houseAd && slot.notice == None
      && slot.bid.impID == imp.id && slot.bid.price == settings.house.price
      && slot.bid.adID == settings.house.campaignID && slot.bid.crID == settings.house.creativeID
      && slot.bid.adMarkup == settings.house.markup
      && (imp.banner.Some? ==> slot.bid.w == imp.banner.value.w && slot.bid.h == imp.banner.value.h)
      && slot.event.campaignID == "house-deal" && slot.event.floorPrice == imp.bidFloor
      && slot.event.userID == userID && DeviceData(slot.event, req.device)
  {}

  /** The impressions that get a bid: those with a valid bid, or all of them when house ads are on. */
  predicate Served(settings: Settings, result: AuctionResult) {
    result.winner.Some? || settings.house.enabled
  }

  function ServedImps(settings: Settings, imps: seq<Impression>, results: seq<AuctionResult>): seq<string>
    requires |imps| == |results|
  {
    if imps == [] then []
    else
      var n := |imps| - 1;
      ServedImps(settings, imps[..n], results[..n]) + if Served(settings, results[n]) then [imps[n].id] else []
  }

  function ImpIDs(slots: seq<Slot>): seq<string> {
    seq(|slots|, i requires 0 <= i < |slots| => slots[i].bid.impID)
  }

  /** A slot's event and notice speak of its bid, and a notice goes only to an outside DSP with a URL. */
  ghost predicate Consistent(req: Request, slot: Slot) {
    && slot.event.requestID == req.id
    && slot.event.bidID == slot.bid.id && slot.event.impressionID == slot.bid.impID
    && slot.event.winPrice == slot.bid.price && slot.event.creativeID == slot.bid.crID
    && (slot.notice.Some? ==>
          && slot.notice.value.clearingPrice == slot.bid.price && slot.notice.value.impID == slot.bid.impID
          && slot.notice.value.requestID == req.id
          && slot.notice.value.nurl != "" && slot.seat != INTERNAL && !slot.bid.houseAd)
  }

  /** One slot for each served impression, in order, each with a consistent event and notice. */
  lemma {:induction false} OneSlotPerServedImp(settings: Settings, req: Request, userID: string,
                                               imps: seq<Impression>, results: seq<AuctionResult>)
    requires |imps| == |results|
    ensures var slots := Slots(settings, req, userID, imps, results);
      && ImpIDs(slots) == ServedImps(settings, imps, results)
      && |EventsOf(slots)| == |slots|
      && (forall i :: 0 <= i < |slots| ==> Consistent(req, slots[i]))
  {
    if imps != [] {
      var n := |imps| - 1;
      OneSlotPerServedImp(settings, req, userID, imps[..n], results[..n]);
    }
  }

  /** Every notice offered is the notice of some slot. */
  lemma {:induction false} NoticesComeFromSlots(slots: seq<Slot>, notice: Notice)
    requires notice in NoticesOf(slots)
    ensures exists i :: 0 <= i < |slots| && slots[i].notice == Some(notice)
  {
    var n := |slots| - 1;
    if slots[n].notice != Some(notice) {
      assert notice in NoticesOf(slots[..n]);
      NoticesComeFromSlots(slots[..n], notice);
      var i :| 0 <= i < n && slots[..n][i].notice == Some(notice);
      assert slots[i].notice == Some(notice);
    }
  }

  /** Every URL fired has its price macros expanded, to a text that reads as the price of the response bid the
      notice is for, to within half a unit of the fourth decimal. */
  lemma FiredNoticesCarryBidPrice(settings: Settings, req: Request, userID: string, imps: seq<Impression>,
                                  results: seq<AuctionResult>, notice: Notice)
    requires |imps| == |results| && notice in NoticesOf(Slots(settings, req, userID, imps, results))
    ensures !Text.Contains(WinNotice.FiredURL(notice.nurl, notice.clearingPrice), WinNotice.MACRO)
    ensures exists i :: && 0 <= i < |Slots(settings, req, userID, imps, results)|
                        && var bid := Slots(settings, req, userID, imps, results)[i].bid;
                           bid.impID == notice.impID && WinNotice.Announces(notice.clearingPrice, bid.price)
  {
    var slots := Slots(settings, req, userID, imps, results);
    OneSlotPerServedImp(settings, req, userID, imps, results);
    NoticesComeFromSlots(slots, notice);
    var i :| 0 <= i < |slots| && slots[i].notice == Some(notice);
    assert Consistent(req, slots[i]);
    WinNotice.ExpansionLaws(notice.nurl, notice.clearingPrice);
    WinNotice.PriceTextAccurate(notice.clearingPrice);
  }

  /** An auction win is never sold below the impression's floor. (House ads are: their price is not checked.) */
  lemma WinsRespectFloor(settings: Settings, req: Request, userID: string, internalBids: seq<Bid>, dspBids: seq<Bid>,
                         imp: Impression, result: AuctionResult)
    requires AuctionedAt(settings, req, internalBids, dspBids, imp, result)
    ensures var slot := SlotOf(settings, req, userID, imp, result);
      slot.Some? && !slot.value.bid.houseAd ==>
        slot.value.bid.price >= imp.bidFloor && slot.value.event.floorPrice == imp.bidFloor
  {
    if result.winner.Some? {
      PriceRespectsFloor(BidsFor(imp.id, dspBids, internalBids), imp.bidFloor,
                         IsFirstPrice(req.auctionType, settings.firstPrice), result);
    }
  }

  /** The two queues that the handler makes, with the workers that it starts for each. */
  lemma HandlerQueuesDeliver()
    ensures WorkerPool.Delivers<ImpressionEvent>(10000, 16)
    ensures WorkerPool.Delivers<Notice>(1000, 4)
    ensures WorkerPool.EVENT_CAPACITY == 10000 && WorkerPool.EVENT_WORKERS == 16
    ensures WorkerPool.NOTICE_CAPACITY == 1000 && WorkerPool.NOTICE_WORKERS == 4
  {
    WorkerPool.PoolDelivers<ImpressionEvent>(10000, 16);
    WorkerPool.PoolDelivers<Notice>(1000, 4);
  }

  // ---------------------------------------------------------------------------------------------
  // Bid ids
  // ---------------------------------------------------------------------------------------------

  lemma SuffixCancels(prefix: string, a: string, b: string)
    requires prefix + a == prefix + b
    ensures a == b
  {
    assert (prefix + a)[|prefix|..] == a && (prefix + b)[|prefix|..] == b;
  }

  lemma DoubledIDs(prefix: string, a: string, b: string)
    requires prefix + a + ("-" + a) == prefix + b + ("-" + b)
    ensures a == b
  {
    var s := prefix + a + ("-" + a);
    assert |s| == |prefix| + 2 * |a| + 1 && |s| == |prefix| + 2 * |b| + 1;
    assert s[|prefix|..|prefix| + |a|] == a && s[|prefix|..|prefix| + |b|] == b;
  }

  /** With several impressions, two bids of one response share an id exactly when they are for impressions with
      the same id and of the same kind (both auction wins or both house ads). */
  lemma BidIDsEqualIff(settings: Settings, req: Request, userID: string, imp1: Impression, result1: AuctionResult,
                       imp2: Impression, result2: AuctionResult)
    requires settings.multiImp
    requires SlotOf(settings, req, userID, imp1, result1).Some? && SlotOf(settings, req, userID, imp2, result2).Some?
    ensures var bid1 := SlotOf(settings, req, userID, imp1, result1).value.bid;
      var bid2 := SlotOf(settings, req, userID, imp2, result2).value.bid;
      bid1.id == bid2.id <==> imp1.id == imp2.id && bid1.houseAd == bid2.houseAd
  {
    var bid1 := SlotOf(settings, req, userID, imp1, result1).value.bid;
    var bid2 := SlotOf(settings, req, userID, imp2, result2).value.bid;
    if bid1.houseAd != bid2.houseAd {
      assert bid1.id[0] != bid2.id[0];
    } else if bid1.id == bid2.id {
      if bid1.houseAd {
        DoubledIDs("house-bid-", imp1.id, imp2.id);
      } else {
        SuffixCancels("bid-" + req.id, "-" + imp1.id, "-" + imp2.id);
        SuffixCancels("-", imp1.id, imp2.id);
      }
    }
  }

  function BidIDs(slots: seq<Slot>): seq<string> {
    seq(|slots|, i requires 0 <= i < |slots| => slots[i].bid.id)
  }

  ghost predicate DistinctImps(imps: seq<Impression>) {
    forall i, j :: 0 <= i < j < |imps| ==> imps[i].id != imps[j].id
  }

  /** Each slot comes from an impression. */
  lemma {:induction false} SlotHasImp(settings: Settings, req: Request, userID: string,
                                      imps: seq<Impression>, results: seq<AuctionResult>, slot: Slot)
    requires |imps| == |results| && slot in Slots(settings, req, userID, imps, results)
    ensures exists i :: 0 <= i < |imps| && SlotOf(settings, req, userID, imps[i], results[i]) == Some(slot)
  {
    var n := |imps| - 1;
    if SlotOf(settings, req, userID, imps[n], results[n]) != Some(slot) {
      assert slot in Slots(settings, req, userID, imps[..n], results[..n]);
      SlotHasImp(settings, req, userID, imps[..n], results[..n], slot);
      var i :| 0 <= i < n && SlotOf(settings, req, userID, imps[..n][i], results[..n][i]) == Some(slot);
      assert SlotOf(settings, req, userID, imps[i], results[i]) == Some(slot);
    }
  }

  /** Distinct impression ids give distinct bid ids, with several impressions or one. */
  lemma {:induction false} BidIDsDistinct(settings: Settings, req: Request, userID: string,
                                          imps: seq<Impression>, results: seq<AuctionResult>)
    requires |imps| == |results| && DistinctImps(imps) && (settings.multiImp || |imps| <= 1)
    ensures Distinct(BidIDs(Slots(settings, req, userID, imps, results)))
  {
    if imps != [] {
      var n := |imps| - 1;
      BidIDsDistinct(settings, req, userID, imps[..n], results[..n]);
      var init := Slots(settings, req, userID, imps[..n], results[..n]);
      var last := SlotOf(settings, req, userID, imps[n], results[n]);
      if last.Some? {
        forall k | 0 <= k < |init| ensures init[k].bid.id != last.value.bid.id {
          SlotHasImp(settings, req, userID, imps[..n], results[..n], init[k]);
          var i :| 0 <= i < n && SlotOf(settings, req, userID, imps[..n][i], results[..n][i]) == Some(init[k]);
          BidIDsEqualIff(settings, req, userID, imps[i], results[i], imps[n], results[n]);
        }
        assert Slots(settings, req, userID, imps, results) == init + [last.value];
        assert BidIDs(init + [last.value]) == BidIDs(init) + [last.value.bid.id];
      } else {
        assert Slots(settings, req, userID, imps, results) == init;
      }
    }
  }

  ghost predicate NoSharedID(bids: seq<ResponseBid>) {
    forall a, b :: 0 <= a < b < |bids| ==> bids[a].id != bids[b].id
  }

  lemma NoSharedIDRearranged(a: seq<ResponseBid>, b: seq<ResponseBid>)
    requires Permutation(a, b) && NoSharedID(a)
    ensures NoSharedID(b)
  {
    PermutationMembers(a, b);
    forall j, k | 0 <= j < k < |b| ensures b[j].id != b[k].id {
      assert b[j] in a && b[k] in a;
      if b[j] == b[k] {
        TwiceIn(b, j, k);
        DistinctMultiplicity(a, b[j]);
      }
    }
  }

  /** In a reply to a request with distinct impression ids no bid id repeats. */
  lemma ReplyBidIDsDistinct(settings: Settings, req: Request, userID: string, results: seq<AuctionResult>, reply: Reply)
    requires DistinctImps(req.imp) && |results| == |ImpsToProcess(settings, req)|
    requires Represents(reply, req, Slots(settings, req, userID, ImpsToProcess(settings, req), results))
    ensures NoSharedID(ReplyBids(reply))
  {
    var slots := Slots(settings, req, userID, ImpsToProcess(settings, req), results);
    BidIDsDistinct(settings, req, userID, ImpsToProcess(settings, req), results);
    ReplyConserves(reply, req, slots);
    assert NoSharedID(BidsOf(slots)) by {
      forall a, b | 0 <= a < b < |slots| ensures slots[a].bid.id != slots[b].bid.id {
        assert BidIDs(slots)[a] != BidIDs(slots)[b];
      }
    }
    NoSharedIDRearranged(BidsOf(slots), ReplyBids(reply));
  }

  // ---------------------------------------------------------------------------------------------
  // Independence of the network's timing
  // ---------------------------------------------------------------------------------------------

  lemma BidsForPermutation(impID: string, dspBids1: seq<Bid>, dspBids2: seq<Bid>, internalBids: seq<Bid>)
    requires Permutation(dspBids1, dspBids2)
    ensures Permutation(BidsFor(impID, dspBids1, internalBids), BidsFor(impID, dspBids2, internalBids))
  {
    FilterPermutation((b: Bid) => b.impID == impID, dspBids1, dspBids2);
  }

  /** Two responses to one request that differ only in who won a tie. */
  ghost predicate SameUpToTies(a: Option<Slot>, b: Option<Slot>) {
    && a.Some? == b.Some?
    && (a.Some? ==>
          a.value.bid == b.value.bid.(adID := a.value.bid.adID, crID := a.value.bid.crID))
  }

  lemma SettlesRearranged(bids1: seq<Bid>, bids2: seq<Bid>, floor: real, firstPrice: bool, r: AuctionResult)
    requires Permutation(bids1, bids2) && Settles(bids2, floor, firstPrice, r)
    ensures Settles(bids1, floor, firstPrice, r)
  {
    PermutationMembers(bids1, bids2);
    FilterPermutation((b: Bid) => b.price >= floor, bids1, bids2);
    assert Permutation(AtOrAbove(bids1, floor), AtOrAbove(bids2, floor));
    PermutationMembers(AtOrAbove(bids1, floor), AtOrAbove(bids2, floor));
  }

  lemma SlotsAgree(settings: Settings, req: Request, userID: string, imp: Impression, r1: AuctionResult,
                   r2: AuctionResult)
    requires r1 == r2.(winner := r1.winner) && r1.winner.Some? == r2.winner.Some?
    ensures SameUpToTies(SlotOf(settings, req, userID, imp, r1), SlotOf(settings, req, userID, imp, r2))
  {}

  /** What two requests agree on for one impression, given the same bids for it in any two orders. */
  lemma ImpressionAgrees(settings: Settings, req: Request, userID: string, imp: Impression, internalBids: seq<Bid>,
                         all1: seq<Bid>, all2: seq<Bid>, r1: AuctionResult, r2: AuctionResult)
    requires Permutation(all1, all2)
    requires AuctionedAt(settings, req, internalBids, all1, imp, r1)
    requires AuctionedAt(settings, req, internalBids, all2, imp, r2)
    ensures r1 == r2.(winner := r1.winner) && (r1.winner.Some? <==> r2.winner.Some?)
    ensures r1.winner.Some? ==> SameRank(r1.winner.value, r2.winner.value)
    ensures SameUpToTies(SlotOf(settings, req, userID, imp, r1), SlotOf(settings, req, userID, imp, r2))
    ensures Untied(BidsFor(imp.id, all1, internalBids), imp.bidFloor) ==> r1 == r2
  {
    var firstPrice := IsFirstPrice(req.auctionType, settings.firstPrice);
    var bids1, bids2 := BidsFor(imp.id, all1, internalBids), BidsFor(imp.id, all2, internalBids);
    BidsForPermutation(imp.id, all1, all2, internalBids);
    SettlementsAgree(bids1, bids2, imp.bidFloor, firstPrice, r1, r2);
    SettlesRearranged(bids1, bids2, imp.bidFloor, firstPrice, r2);
    SlotsAgree(settings, req, userID, imp, r1, r2);
    if Untied(bids1, imp.bidFloor) {
      WinnerDeterminedIffUntied(bids1, imp.bidFloor, firstPrice);
    }
  }

  /** From DSP answers to response: two requests with the same answers, whatever order the goroutines ran in
      and whatever sort ranked the bids, give for every impression the same number of valid bids, the same
      winning priority and bid price, and the same clearing price, bid id and size; and the very same winner,
      event and notice unless different bids tie for the lead. */
  lemma ScheduleIndependence(answers: seq<Answer>, schedule1: seq<Thread>, schedule2: seq<Thread>,
                             settings: Settings, req: Request, userID: string, matched: seq<Campaign>,
                             results1: seq<AuctionResult>, results2: seq<AuctionResult>, i: nat)
    requires Exec(answers, schedule1).Some? && Exec(answers, schedule1).value.caller.Returned?
    requires Exec(answers, schedule2).Some? && Exec(answers, schedule2).value.caller.Returned?
    requires Auctioned(settings, req, matched, Exec(answers, schedule1).value.allBids, results1)
    requires Auctioned(settings, req, matched, Exec(answers, schedule2).value.allBids, results2)
    requires i < |ImpsToProcess(settings, req)|
    ensures var imp := ImpsToProcess(settings, req)[i];
      var slot1 := SlotOf(settings, req, userID, imp, results1[i]);
      var slot2 := SlotOf(settings, req, userID, imp, results2[i]);
      && results1[i] == results2[i].(winner := results1[i].winner)
      && (results1[i].winner.Some? <==> results2[i].winner.Some?)
      && (results1[i].winner.Some? ==> SameRank(results1[i].winner.value, results2[i].winner.value))
      && SameUpToTies(slot1, slot2)
      && (Untied(BidsFor(imp.id, Exec(answers, schedule1).value.allBids, InternalBids(matched)), imp.bidFloor)
          ==> slot1 == slot2)
  {
    var imp, internalBids := ImpsToProcess(settings, req)[i], InternalBids(matched);
    var all1, all2 := Exec(answers, schedule1).value.allBids, Exec(answers, schedule2).value.allBids;
    RunsReturnSameBids(answers, schedule1, schedule2);
    assert AuctionedAt(settings, req, internalBids, all1, imp, results1[i]);
    assert AuctionedAt(settings, req, internalBids, all2, imp, results2[i]);
    ImpressionAgrees(settings, req, userID, imp, internalBids, all1, all2, results1[i], results2[i]);
  }
}
