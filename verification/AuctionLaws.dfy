/** What the engine guarantees whatever order bids arrive in and whatever sort ranks them. */
module AuctionLaws {
  import opened Sequences
  import opened Auction

  // ---------------------------------------------------------------------------------------------
  // Settlements and rankings are two views of the same thing
  // ---------------------------------------------------------------------------------------------

  lemma RankedFront(x: Bid, s: seq<Bid>)
    requires Ranked(s) && forall c :: c in multiset(s) ==> !Before(c, x)
    ensures Ranked([x] + s)
  {
    forall j | 0 <= j < |s| ensures !Before(s[j], x) { assert s[j] in multiset(s); }
  }

  lemma RankedSplit(s: seq<Bid>)
    requires Ranked(s) && s != []
    ensures Ranked(s[1..]) && multiset(s) == multiset(s[1..]) + multiset{s[0]}
    ensures forall c :: c in multiset(s[1..]) ==> !Before(c, s[0])
  {
    assert s == [s[0]] + s[1..];
    forall c | c in multiset(s[1..]) ensures !Before(c, s[0]) {
      assert c in s[1..];
    }
  }

  function RankInto(b: Bid, s: seq<Bid>): (r: seq<Bid>)
    requires Ranked(s)
    ensures Ranked(r) && multiset(r) == multiset(s) + multiset{b}
  {
    if s == [] then [b]
    else
      RankedSplit(s);
      if !Before(s[0], b) then
        assert forall c :: c in multiset(s) ==> !Before(c, b) by {
          forall c | c in multiset(s[1..]) ensures !Before(c, b) { BeforeIsStrictWeakOrder(c, s[0], b); }
        }
        RankedFront(b, s);
        [b] + s
      else
        var rest := RankInto(b, s[1..]);
        RankedFront(s[0], rest);
        [s[0]] + rest
  }

  function RankingOf(s: seq<Bid>): (r: seq<Bid>)
    ensures SortContract(s, r)
  {
    if s == [] then []
    else
      SplitLast(s);
      RankInto(s[|s| - 1], RankingOf(s[..|s| - 1]))
  }

  /** A ranking that starts with any bid nothing ranks above. */
  lemma RankingLedBy(s: seq<Bid>, w: Bid) returns (ranking: seq<Bid>)
    requires Top(multiset(s), w)
    ensures ranking != [] && ranking[0] == w && SortContract(s, ranking)
  {
    var others := TakeOut(s, w);
    var rest := RankingOf(others);
    assert forall c :: c in multiset(others) ==> c in multiset(s);
    RankedFront(w, rest);
    ranking := [w] + rest;
  }

  // ---------------------------------------------------------------------------------------------
  // Independence of arrival order and of the sort
  // ---------------------------------------------------------------------------------------------

  lemma TopsTie(m: multiset<Bid>, b: Bid, c: Bid)
    requires Top(m, b) && Top(m, c)
    ensures SameRank(b, c)
  {}

  lemma ClearsAgree(m: multiset<Bid>, floor: real, firstPrice: bool, w1: Bid, p1: real, w2: Bid, p2: real)
    requires Clears(m, floor, firstPrice, w1, p1) && Clears(m, floor, firstPrice, w2, p2)
    ensures SameRank(w1, w2) && p1 == p2
  {
    TopsTie(m, w1, w2);
    if !firstPrice && m != multiset{w1} && w1 == w2 {
      var s1 :| Top(m - multiset{w1}, s1) && p1 == s1.price + MIN_INCREMENT;
      var s2 :| Top(m - multiset{w1}, s2) && p2 == s2.price + MIN_INCREMENT;
      TopsTie(m - multiset{w1}, s1, s2);
    } else if !firstPrice && w1 != w2 {
      assert w1 in m && w2 in m;
      assert w2 in m - multiset{w1} && w1 in m - multiset{w2};
      var s1 :| Top(m - multiset{w1}, s1) && p1 == s1.price + MIN_INCREMENT;
      var s2 :| Top(m - multiset{w2}, s2) && p2 == s2.price + MIN_INCREMENT;
      assert s1 in m && s2 in m;
    }
  }

  /** Two auctions over the same bids, in any two arrival orders and with any two sorts, agree on the
      number of valid bids, on the winner's rank and price, and on the clearing price. */
  lemma SettlementsAgree(bids1: seq<Bid>, bids2: seq<Bid>, floor: real, firstPrice: bool,
                         r1: AuctionResult, r2: AuctionResult)
    requires Permutation(bids1, bids2)
    requires Settles(bids1, floor, firstPrice, r1) && Settles(bids2, floor, firstPrice, r2)
    ensures r1 == r2.(winner := r1.winner)
    ensures r1.winner.Some? == r2.winner.Some?
    ensures r1.winner.Some? ==> SameRank(r1.winner.value, r2.winner.value)
  {
    PermutationMembers(bids1, bids2);
    FilterPermutation((b: Bid) => b.price >= floor, bids1, bids2);
    var valid1, valid2 := AtOrAbove(bids1, floor), AtOrAbove(bids2, floor);
    assert Permutation(valid1, valid2);
    PermutationMembers(valid1, valid2);
    if valid1 != [] {
      ClearsAgree(multiset(valid1), floor, firstPrice, r1.winner.value, r1.clearingPrice,
                  r2.winner.value, r2.clearingPrice);
    }
  }

  /** Every settlement is what the code reads off some ranking the sort may produce, so the relation
      `Settles` allows nothing that the engine cannot answer. */
  lemma SettlementHasRanking(bids: seq<Bid>, floor: real, firstPrice: bool, r: AuctionResult)
    returns (ranking: seq<Bid>)
    requires Settles(bids, floor, firstPrice, r) && r.winner.Some?
    ensures ranking != [] && SortContract(AtOrAbove(bids, floor), ranking)
    ensures r == AuctionResult(Some(ranking[0]), PriceOff(ranking, floor, firstPrice), |bids|, |ranking|, "")
  {
    var valid := AtOrAbove(bids, floor);
    ranking := RankingLedBy(valid, r.winner.value);
    PermutationMembers(valid, ranking);
    var read := AuctionResult(Some(ranking[0]), PriceOff(ranking, floor, firstPrice), |bids|, |ranking|, "");
    RankingSettles(bids, floor, firstPrice, ranking, read);
    SettlementsAgree(bids, bids, floor, firstPrice, r, read);
  }

  /** No two different valid bids share the leading rank. */
  ghost predicate Untied(bids: seq<Bid>, floor: real) {
    var m := multiset(AtOrAbove(bids, floor));
    forall b, c :: Top(m, b) && Top(m, c) ==> b == c
  }

  ghost predicate WinnerDetermined(bids: seq<Bid>, floor: real, firstPrice: bool) {
    forall r1, r2 :: Settles(bids, floor, firstPrice, r1) && Settles(bids, floor, firstPrice, r2)
      ==> r1.winner == r2.winner
  }

  lemma ResultLedBy(bids: seq<Bid>, floor: real, firstPrice: bool, w: Bid) returns (r: AuctionResult)
    requires Top(multiset(AtOrAbove(bids, floor)), w)
    ensures Settles(bids, floor, firstPrice, r) && r.winner == Some(w)
  {
    var ranking := RankingLedBy(AtOrAbove(bids, floor), w);
    r := AuctionResult(Some(w), PriceOff(ranking, floor, firstPrice), |bids|, |ranking|, "");
    RankingSettles(bids, floor, firstPrice, ranking, r);
  }

  /** The sort is not stable, so arrival order is no tie-break: the winner is determined exactly when the
      lead is untied. */
  lemma WinnerDeterminedIffUntied(bids: seq<Bid>, floor: real, firstPrice: bool)
    ensures WinnerDetermined(bids, floor, firstPrice) <==> Untied(bids, floor)
  {
    var valid := AtOrAbove(bids, floor);
    var m := multiset(valid);
    if WinnerDetermined(bids, floor, firstPrice) {
      forall b, c | Top(m, b) && Top(m, c) ensures b == c {
        var r1 := ResultLedBy(bids, floor, firstPrice, b);
        var r2 := ResultLedBy(bids, floor, firstPrice, c);
        assert r1.winner == r2.winner;
      }
    }
  }

  // ---------------------------------------------------------------------------------------------
  // Deals before prices
  // ---------------------------------------------------------------------------------------------

  /** A guaranteed bid comes before any other, a private-marketplace bid before open ones and those of unknown
      deals, an open one before those, at any prices; within one deal the higher price comes first. */
  lemma DealsBeforePrices(a: Bid, b: Bid)
    ensures a.dealType.PG? && !b.dealType.PG? ==> Before(a, b)
    ensures a.dealType.PMP? && (b.dealType.Open? || b.dealType.Other?) ==> Before(a, b)
    ensures a.dealType.Open? && b.dealType.Other? ==> Before(a, b)
    ensures a.dealType == b.dealType || (a.dealType.Other? && b.dealType.Other?)
      ==> (Before(a, b) <==> a.price > b.price)
  {}

  /** The winner's deal is the best there is among the bids that reach the floor, and within that deal its price. */
  lemma WinnerIsBest(bids: seq<Bid>, floor: real, firstPrice: bool, r: AuctionResult, b: Bid)
    requires Settles(bids, floor, firstPrice, r) && b in bids && b.price >= floor
    ensures r.winner.Some? && r.winner.value in bids && r.winner.value.price >= floor
    ensures var w := r.winner.value;
      && (b.dealType.PG? ==> w.dealType.PG?)
      && (b.dealType.PMP? ==> w.dealType.PG? || w.dealType.PMP?)
      && (b.dealType.Open? ==> !w.dealType.Other?)
      && (b.dealType == w.dealType || (b.dealType.Other? && w.dealType.Other?) ==> b.price <= w.price)
  {
    SettledWinner(bids, floor, firstPrice, r);
    DealsBeforePrices(b, r.winner.value);
  }

  // ---------------------------------------------------------------------------------------------
  // Prices
  // ---------------------------------------------------------------------------------------------

  /** The winner really bid, above the floor, and is charged at least the floor; in second-price mode it is
      charged exactly the floor just when it was alone. */
  lemma PriceRespectsFloor(bids: seq<Bid>, floor: real, firstPrice: bool, r: AuctionResult)
    requires Settles(bids, floor, firstPrice, r) && r.winner.Some?
    ensures r.winner.value in bids && floor <= r.winner.value.price
    ensures floor <= r.clearingPrice
    ensures firstPrice ==> r.clearingPrice == r.winner.value.price
    ensures !firstPrice ==> (r.clearingPrice == floor <==> r.validBidsCount == 1)
  {
    var valid := AtOrAbove(bids, floor);
    var m, w := multiset(valid), r.winner.value;
    ValidMembers(bids, floor);
    assert |m| == |valid|;
    if !firstPrice && m != multiset{w} {
      var s :| Top(m - multiset{w}, s) && r.clearingPrice == s.price + MIN_INCREMENT;
      assert s in m;
      assert |m| == |m - multiset{w}| + 1;
    }
  }

  /** The bid that sets a contested second price. */
  ghost predicate RunnerUp(bids: seq<Bid>, floor: real, w: Bid, s: Bid) {
    Top(multiset(AtOrAbove(bids, floor)) - multiset{w}, s)
  }

  lemma ContestedClears(m: multiset<Bid>, floor: real, w: Bid, price: real)
    requires |m| > 1 && Clears(m, floor, false, w, price)
    ensures exists s :: Top(m - multiset{w}, s)
    ensures forall s :: Top(m - multiset{w}, s) ==> price == s.price + MIN_INCREMENT && s in m && !Before(s, w)
  {
    var second :| Top(m - multiset{w}, second) && price == second.price + MIN_INCREMENT;
  }

  /** A contested second-price winner pays the runner-up's price plus the increment. It is charged more than
      it bid exactly when the runner-up bid within the increment of it, or above it (a deal outranking a
      higher price); against a runner-up of its own priority the excess is at most the increment. */
  lemma OverchargeIff(bids: seq<Bid>, floor: real, r: AuctionResult)
    requires Settles(bids, floor, false, r) && r.validBidsCount > 1
    ensures exists s :: RunnerUp(bids, floor, r.winner.value, s)
    ensures forall s :: RunnerUp(bids, floor, r.winner.value, s) ==>
      && r.clearingPrice == s.price + MIN_INCREMENT
      && (r.clearingPrice > r.winner.value.price <==> s.price > r.winner.value.price - MIN_INCREMENT)
      && (Priority(s.dealType) == Priority(r.winner.value.dealType)
          ==> r.clearingPrice <= r.winner.value.price + MIN_INCREMENT)
  {
    var m, w := multiset(AtOrAbove(bids, floor)), r.winner.value;
    ContestedClears(m, floor, w, r.clearingPrice);
    var s :| Top(m - multiset{w}, s);
    assert RunnerUp(bids, floor, w, s);
  }

  /** Replacing one bid by another valid one replaces it in the valid bids and nothing else. */
  lemma ValidReplace(bids: seq<Bid>, i: nat, b: Bid, floor: real)
    requires i < |bids| && bids[i].price >= floor && b.price >= floor
    ensures multiset(AtOrAbove(bids[i := b], floor)) - multiset{b}
         == multiset(AtOrAbove(bids, floor)) - multiset{bids[i]}
    ensures b in AtOrAbove(bids[i := b], floor)
  {
    var p := (b: Bid) => b.price >= floor;
    assert bids == bids[..i] + [bids[i]] + bids[i + 1..];
    assert bids[i := b] == bids[..i] + [b] + bids[i + 1..];
    FilterAround(p, bids[..i], bids[i], bids[i + 1..]);
    FilterAround(p, bids[..i], b, bids[i + 1..]);
  }

  ghost predicate StrictlyLeads(bids: seq<Bid>, i: nat, floor: real)
    requires i < |bids|
  {
    && bids[i].price >= floor
    && forall b :: b in multiset(AtOrAbove(bids, floor)) - multiset{bids[i]} ==> Before(bids[i], b)
  }

  lemma StrictLeaderWins(bids: seq<Bid>, i: nat, floor: real, firstPrice: bool, r: AuctionResult)
    requires i < |bids| && StrictlyLeads(bids, i, floor) && Settles(bids, floor, firstPrice, r)
    ensures r.winner == Some(bids[i])
  {
    ValidMembers(bids, floor);
    var m, lead := multiset(AtOrAbove(bids, floor)), bids[i];
    assert lead in bids && lead in m;
    assert forall b :: b in m ==> b == lead || b in m - multiset{lead};
  }

  lemma OthersSetPrice(m1: multiset<Bid>, w1: Bid, p1: real, m2: multiset<Bid>, w2: Bid, p2: real, floor: real)
    requires Clears(m1, floor, false, w1, p1) && Clears(m2, floor, false, w2, p2)
    requires m1 - multiset{w1} == m2 - multiset{w2}
    ensures p1 == p2
  {
    var others := m1 - multiset{w1};
    assert m1 == others + multiset{w1} && m2 == others + multiset{w2};
    if others != multiset{} {
      assert |m1| > 1 && |m2| > 1;
      ContestedClears(m1, floor, w1, p1);
      ContestedClears(m2, floor, w2, p2);
    } else {
      assert m1 == multiset{w1} && m2 == multiset{w2};
    }
  }

  /** A strict winner's own bid does not enter its second price: any other bid that still clears the floor
      and still strictly wins is charged the same. */
  lemma OwnBidDoesNotSetPrice(bids: seq<Bid>, i: nat, price: real, floor: real,
                              before: AuctionResult, after: AuctionResult)
    requires i < |bids|
    requires StrictlyLeads(bids, i, floor) && StrictlyLeads(bids[i := bids[i].(price := price)], i, floor)
    requires Settles(bids, floor, false, before)
    requires Settles(bids[i := bids[i].(price := price)], floor, false, after)
    ensures before.winner == Some(bids[i]) && after.winner == Some(bids[i].(price := price))
    ensures before.clearingPrice == after.clearingPrice
  {
    var b := bids[i].(price := price);
    ValidReplace(bids, i, b, floor);
    StrictLeaderWins(bids, i, floor, false, before);
    StrictLeaderWins(bids[i := b], i, floor, false, after);
    OthersSetPrice(multiset(AtOrAbove(bids, floor)), bids[i], before.clearingPrice,
                   multiset(AtOrAbove(bids[i := b], floor)), b, after.clearingPrice, floor);
  }

  // ---------------------------------------------------------------------------------------------
  // More competition
  // ---------------------------------------------------------------------------------------------

  /** The loser of the new bid and the old winner. */
  function Displaced(w: Bid, b: Bid): Bid {
    if Before(b, w) then w else b
  }

  /** With `w` leading `m`, the loser of `b` and `w` outranks the runner-up by its deal while bidding less. */
  ghost predicate Undercuts(m: multiset<Bid>, w: Bid, b: Bid) {
    exists s :: Top(m - multiset{w}, s) && Before(Displaced(w, b), s) && Displaced(w, b).price < s.price
  }

  lemma TopWithOneMore(m: multiset<Bid>, t: Bid, b: Bid)
    requires Top(m, t)
    ensures Top(m + multiset{b}, if Before(b, t) then b else t)
  {
    var top := if Before(b, t) then b else t;
    forall c | c in m + multiset{b} ensures !Before(c, top) {
      if c != b && top == b { BeforeIsStrictWeakOrder(c, t, b); }
    }
  }

  lemma OthersAfter(m: multiset<Bid>, w: Bid, b: Bid)
    requires w in m
    ensures (m + multiset{b}) - multiset{if Before(b, w) then b else w} == (m - multiset{w}) + multiset{Displaced(w, b)}
  {}

  lemma AddToClears(m: multiset<Bid>, floor: real, w: Bid, s: Bid, b: Bid, w': Bid, price': real)
    requires Top(m, w) && Top(m - multiset{w}, s)
    requires Clears(m + multiset{b}, floor, false, w', price')
    ensures price' == (if Before(Displaced(w, b), s) then Displaced(w, b) else s).price + MIN_INCREMENT
  {
    var lead, second := if Before(b, w) then b else w, if Before(Displaced(w, b), s) then Displaced(w, b) else s;
    TopWithOneMore(m, w, b);
    TopWithOneMore(m - multiset{w}, s, Displaced(w, b));
    OthersAfter(m, w, b);
    assert multiset{lead} - multiset{lead} == multiset{};
    assert Clears(m + multiset{b}, floor, false, lead, second.price + MIN_INCREMENT);
    ClearsAgree(m + multiset{b}, floor, false, w', price', lead, second.price + MIN_INCREMENT);
  }

  lemma AddLowersContested(m: multiset<Bid>, floor: real, w: Bid, price: real, b: Bid, w': Bid, price': real)
    requires |m| > 1 && Clears(m, floor, false, w, price)
    requires Clears(m + multiset{b}, floor, false, w', price')
    ensures price' < price <==> Undercuts(m, w, b)
  {
    ContestedClears(m, floor, w, price);
    var second :| Top(m - multiset{w}, second);
    AddToClears(m, floor, w, second, b, w', price');
    forall s | Top(m - multiset{w}, s) ensures SameRank(s, second) { TopsTie(m - multiset{w}, s, second); }
  }

  lemma AddRaisesUncontested(floor: real, w: Bid, price: real, b: Bid, w': Bid, price': real)
    requires w.price >= floor && b.price >= floor
    requires Clears(multiset{w}, floor, false, w, price)
    requires Clears(multiset{w} + multiset{b}, floor, false, w', price')
    ensures price' > price
  {
    ContestedClears(multiset{w} + multiset{b}, floor, w', price');
    var s :| Top(multiset{w} + multiset{b} - multiset{w'}, s);
    assert s == w || s == b;
  }

  lemma AddLowersClearsIff(m: multiset<Bid>, floor: real, w: Bid, price: real, b: Bid, w': Bid, price': real)
    requires w.price >= floor && b.price >= floor
    requires Clears(m, floor, false, w, price) && Clears(m + multiset{b}, floor, false, w', price')
    ensures price' < price <==> Undercuts(m, w, b)
  {
    assert m == (m - multiset{w}) + multiset{w};
    if m - multiset{w} == multiset{} {
      AddRaisesUncontested(floor, w, price, b, w', price');
    } else {
      AddLowersContested(m, floor, w, price, b, w', price');
    }
  }

  lemma ValidAppend(bids: seq<Bid>, b: Bid, floor: real)
    ensures AtOrAbove(bids + [b], floor) == AtOrAbove(bids, floor) + if b.price >= floor then [b] else []
  {
    assert (bids + [b])[..|bids|] == bids;
  }

  /** One more bid lowers the second price exactly when it clears the floor, the auction was already
      contested, and the bid that becomes runner-up outranks the old one by its deal while bidding less (a contested
      auction is one with a runner-up). */
  lemma AddedBidLowersPriceIff(bids: seq<Bid>, b: Bid, floor: real, before: AuctionResult, after: AuctionResult)
    requires Settles(bids, floor, false, before) && before.winner.Some?
    requires Settles(bids + [b], floor, false, after)
    ensures after.clearingPrice < before.clearingPrice <==>
      b.price >= floor && Undercuts(multiset(AtOrAbove(bids, floor)), before.winner.value, b)
  {
    var valid, w := AtOrAbove(bids, floor), before.winner.value;
    var m := multiset(valid);
    ValidAppend(bids, b, floor);
    if b.price < floor {
      ClearsAgree(m, floor, false, w, before.clearingPrice, after.winner.value, after.clearingPrice);
    } else {
      PriceRespectsFloor(bids, floor, false, before);
      assert multiset(valid + [b]) == m + multiset{b};
      AddLowersClearsIff(m, floor, w, before.clearingPrice, b, after.winner.value, after.clearingPrice);
    }
  }

  /** Within one deal priority more competition never lowers the price. */
  lemma RevenueMonotone(bids: seq<Bid>, b: Bid, floor: real, before: AuctionResult, after: AuctionResult)
    requires Settles(bids, floor, false, before) && before.winner.Some?
    requires Settles(bids + [b], floor, false, after)
    requires forall c :: c in bids && c.price >= floor ==> Priority(c.dealType) == Priority(b.dealType)
    ensures before.clearingPrice <= after.clearingPrice
  {
    AddedBidLowersPriceIff(bids, b, floor, before, after);
    ValidMembers(bids, floor);
    var m, w := multiset(AtOrAbove(bids, floor)), before.winner.value;
    assert w in m;
    forall s | Top(m - multiset{w}, s) ensures s in m {}
  }

  lemma {:induction false} AllValid(bids: seq<Bid>, floor: real)
    requires forall b :: b in bids ==> b.price >= floor
    ensures AtOrAbove(bids, floor) == bids
  {
    if |bids| > 0 {
      SplitLast(bids);
      AllValid(bids[..|bids| - 1], floor);
    }
  }

  lemma SettlesByRanking(bids: seq<Bid>, floor: real, ranking: seq<Bid>, price: real) returns (r: AuctionResult)
    requires |ranking| > 1 && SortContract(bids, ranking)
    requires forall b :: b in bids ==> b.price >= floor
    requires price == ranking[1].price + MIN_INCREMENT
    ensures Settles(bids, floor, false, r) && r.clearingPrice == price
  {
    AllValid(bids, floor);
    PermutationMembers(bids, ranking);
    assert ranking[1] in bids;
    r := AuctionResult(Some(ranking[0]), price, |bids|, |ranking|, "");
    RankingSettles(bids, floor, false, ranking, r);
  }

  lemma ThreeRanked(a: Bid, b: Bid, c: Bid)
    requires !Before(b, a) && !Before(c, b)
    ensures SortContract([a, c], [a, c]) && SortContract([a, c, b], [a, b, c])
  {
    BeforeIsStrictWeakOrder(c, b, a);
  }

  /** Across priorities it can: a low guaranteed bid takes the runner-up place from a high open one. */
  lemma RevenueNotMonotoneAcrossPriorities()
    returns (bids: seq<Bid>, b: Bid, before: AuctionResult, after: AuctionResult)
    ensures Settles(bids, 1.0, false, before) && Settles(bids + [b], 1.0, false, after)
    ensures before.clearingPrice == 5.01 && after.clearingPrice == 1.51
  {
    var pg := Bid("1", PG, 2.0, "", "internal", "", "", "");
    var open := Bid("2", Open, 5.0, "", "dsp", "", "imp", "");
    b := Bid("3", PG, 1.5, "", "internal", "", "", "");
    bids := [pg, open];
    ThreeRanked(pg, b, open);
    assert bids + [b] == [pg, open, b];
    before := SettlesByRanking(bids, 1.0, [pg, open], 5.01);
    after := SettlesByRanking(bids + [b], 1.0, [pg, b, open], 1.51);
  }
}
