/** The auction engine: floor filter, ranking by deal priority and price, first- and second-price clearing. */
module Auction {
  import opened Sequences

  /** The three named deal texts, and any other text. */
  datatype DealType = PG | PMP | Open | Other(text: string)

  const AUCTION_TYPE_FIRST_PRICE := 1
  const MIN_INCREMENT: real := 0.01

  datatype Bid = Bid(dealID: string, dealType: DealType, price: real, adID: string,
                     dspName: string, creativeID: string, impID: string, nurl: string)

  datatype AuctionResult = AuctionResult(winner: Option<Bid>, clearingPrice: real,
                                         totalBidsReceived: nat, validBidsCount: nat, noBidReason: string)

  function Priority(dealType: DealType): nat {
    match dealType
    case PG => 3
    case PMP => 2
    case Open => 1
    case Other(_) => 0
  }

  /** The comparison handed to the sort: `a` is placed before `b`. */
  predicate Before(a: Bid, b: Bid) {
    var pa, pb := Priority(a.dealType), Priority(b.dealType);
    if pa != pb then pa > pb else a.price > b.price
  }

  predicate SameRank(a: Bid, b: Bid) {
    Priority(a.dealType) == Priority(b.dealType) && a.price == b.price
  }

  function AtOrAbove(bids: seq<Bid>, floor: real): seq<Bid> {
    Filter((b: Bid) => b.price >= floor, bids)
  }

  // ---------------------------------------------------------------------------------------------
  // The code
  // ---------------------------------------------------------------------------------------------

  method EnforceFloor(bids: seq<Bid>, floor: real) returns (validBids: seq<Bid>)
    ensures validBids == AtOrAbove(bids, floor)
    ensures forall b :: multiset(validBids)[b] == if b.price >= floor then multiset(bids)[b] else 0
  {
    validBids := [];
    for i := 0 to |bids|
      invariant validBids == AtOrAbove(bids[..i], floor)
    {
      assert bids[..i + 1][..i] == bids[..i];
      if bids[i].price >= floor {
        validBids := validBids + [bids[i]];
      }
    }
    assert bids[..|bids|] == bids;
    forall b ensures multiset(validBids)[b] == if b.price >= floor then multiset(bids)[b] else 0 {
      FilterMultiplicity((b: Bid) => b.price >= floor, bids, b);
    }
  }

  ghost predicate Ranked(s: seq<Bid>) {
    forall i, j {:trigger Before(s[j], s[i])} :: 0 <= i < j < |s| ==> !Before(s[j], s[i])
  }

  /** All that `sort.Slice` promises: a rearrangement in rank order; equal ranks come in any order. */
  ghost predicate SortContract(input: seq<Bid>, output: seq<Bid>) {
    Permutation(input, output) && Ranked(output)
  }

  lemma PairSwapped(l: seq<Bid>, a: Bid, b: Bid, r: seq<Bid>)
    ensures Permutation(l + [a, b] + r, l + [b, a] + r)
  {}

  /** Exchanging two elements rearranges a sequence. */
  lemma SwapPermutes(s: seq<Bid>, j: nat)
    requires 0 < j < |s|
    ensures Permutation(s, s[j := s[j - 1]][j - 1 := s[j]])
  {
    var l, r := s[..j - 1], s[j + 1..];
    assert s == l + [s[j - 1], s[j]] + r;
    assert s[j := s[j - 1]][j - 1 := s[j]] == l + [s[j], s[j - 1]] + r;
    PairSwapped(l, s[j - 1], s[j], r);
  }

  /** `Before` is a strict weak order: it is asymmetric, and not being placed before is transitive. */
  lemma BeforeIsStrictWeakOrder(a: Bid, b: Bid, c: Bid)
    ensures !(Before(a, b) && Before(b, a))
    ensures !Before(a, b) && !Before(b, c) ==> !Before(a, c)
  {}

  /** The prefix up to `i` is ranked, apart from the element at `j` that is still sinking to its place. */
  ghost predicate Sinking(s: seq<Bid>, i: nat, j: nat)
    requires j <= i < |s|
  {
    && (forall m, n :: 0 <= m < n <= i && n != j ==> !Before(s[n], s[m]))
  }

  lemma SinkOne(s: seq<Bid>, i: nat, j: nat)
    requires 0 < j <= i < |s|
    requires Sinking(s, i, j) && Before(s[j], s[j - 1])
    ensures Sinking(s[j := s[j - 1]][j - 1 := s[j]], i, j - 1)
  {
    var t := s[j := s[j - 1]][j - 1 := s[j]];
    forall m, n | 0 <= m < n <= i && n != j - 1 ensures !Before(t[n], t[m]) {
      var m' := if m == j then j - 1 else if m == j - 1 then j else m;
      var n' := if n == j then j - 1 else n;
      assert t[m] == s[m'] && t[n] == s[n'];
    }
  }

  lemma Sunk(s: seq<Bid>, i: nat, j: nat)
    requires j <= i < |s|
    requires Sinking(s, i, j) && (j > 0 ==> !Before(s[j], s[j - 1]))
    ensures Ranked(s[..i + 1])
  {
    forall m | 0 <= m < j ensures !Before(s[j], s[m]) {
      if m < j - 1 {
        BeforeIsStrictWeakOrder(s[j], s[j - 1], s[m]);
      }
    }
  }

  lemma StartsSinking(s: seq<Bid>, i: nat)
    requires i < |s| && Ranked(s[..i])
    ensures Sinking(s, i, i)
  {
    forall m, n | 0 <= m < n < i ensures !Before(s[n], s[m]) {
      assert s[..i][n] == s[n] && s[..i][m] == s[m];
    }
  }

  /** Lets the element at `i` sink into the ranked prefix before it. */
  method Insert(a: array<Bid>, i: nat)
    requires i < a.Length && Ranked(a[..][..i])
    modifies a
    ensures Permutation(old(a[..]), a[..]) && Ranked(a[..][..i + 1])
  {
    StartsSinking(a[..], i);
    var j := i;
    while j > 0 && Before(a[j], a[j - 1])
      invariant 0 <= j <= i
      invariant Sinking(a[..], i, j)
      invariant Permutation(old(a[..]), a[..])
    {
      ghost var s := a[..];
      SwapPermutes(s, j);
      SinkOne(s, i, j);
      a[j], a[j - 1] := a[j - 1], a[j];
      assert a[..] == s[j := s[j - 1]][j - 1 := s[j]];
      j := j - 1;
    }
    Sunk(a[..], i, j);
  }

  /** In-place insertion sort by adjacent exchanges, one algorithm that meets the sort's contract. */
  method SortByRank(a: array<Bid>)
    modifies a
    ensures SortContract(old(a[..]), a[..])
  {
    for i := 0 to a.Length
      invariant Ranked(a[..i])
      invariant Permutation(old(a[..]), a[..])
    {
      assert a[..i] == a[..][..i];
      Insert(a, i);
      assert a[..i + 1] == a[..][..i + 1];
    }
    assert a[..a.Length] == a[..];
  }

  /** First-price needs both the request's `at` and the feature flag. */
  predicate IsFirstPrice(auctionType: int, enableFirstPrice: bool) {
    enableFirstPrice && auctionType == AUCTION_TYPE_FIRST_PRICE
  }

  // ---------------------------------------------------------------------------------------------
  // What an auction decides, said without any sort
  // ---------------------------------------------------------------------------------------------

  /** Nothing in `m` ranks above `b`. */
  ghost predicate Top(m: multiset<Bid>, b: Bid) {
    b in m && forall c :: c in m ==> !Before(c, b)
  }

  /** `winner` leads `m`; it pays its own bid in first-price mode, else the runner-up's price plus the
      increment, else the floor when it is alone. */
  ghost predicate Clears(m: multiset<Bid>, floor: real, firstPrice: bool, winner: Bid, price: real) {
    Top(m, winner) &&
    if firstPrice then price == winner.price
    else if m == multiset{winner} then price == floor
    else exists second :: Top(m - multiset{winner}, second) && price == second.price + MIN_INCREMENT
  }

  ghost predicate Settles(bids: seq<Bid>, floor: real, firstPrice: bool, r: AuctionResult) {
    var valid := AtOrAbove(bids, floor);
    && r.totalBidsReceived == |bids|
    && r.validBidsCount == |valid|
    && if valid == [] then r.winner == None && r.clearingPrice == 0.0 && r.noBidReason == "no_valid_bids"
       else && r.winner.Some?
            && r.noBidReason == ""
            && Clears(multiset(valid), floor, firstPrice, r.winner.value, r.clearingPrice)
  }

  /** What the code reads off a ranking. */
  function PriceOff(ranking: seq<Bid>, floor: real, firstPrice: bool): real
    requires ranking != []
  {
    if firstPrice then ranking[0].price
    else if |ranking| > 1 && ranking[1].price + MIN_INCREMENT > floor then ranking[1].price + MIN_INCREMENT
    else floor
  }

  lemma ValidMembers(bids: seq<Bid>, floor: real)
    ensures forall b :: b in AtOrAbove(bids, floor) <==> b in bids && b.price >= floor
    ensures forall b :: b in multiset(AtOrAbove(bids, floor)) <==> b in AtOrAbove(bids, floor)
  {
    forall b ensures b in AtOrAbove(bids, floor) <==> b in bids && b.price >= floor {
      FilterMultiplicity((b: Bid) => b.price >= floor, bids, b);
    }
  }

  lemma Tail(ranking: seq<Bid>)
    requires ranking != []
    ensures multiset(ranking[1..]) == multiset(ranking) - multiset{ranking[0]}
    ensures forall b :: b in multiset(ranking[1..]) <==> b in ranking[1..]
    ensures forall b :: b in multiset(ranking) <==> b in ranking
  {
    assert ranking == [ranking[0]] + ranking[1..];
  }

  /** Whatever order the sort leaves equal ranks in, what the code reads off the ranking is a settlement. */
  lemma RankingSettles(bids: seq<Bid>, floor: real, firstPrice: bool, ranking: seq<Bid>, r: AuctionResult)
    requires ranking != []
    requires SortContract(AtOrAbove(bids, floor), ranking)
    requires r == AuctionResult(Some(ranking[0]), PriceOff(ranking, floor, firstPrice), |bids|, |ranking|, "")
    ensures Settles(bids, floor, firstPrice, r)
  {
    var valid := AtOrAbove(bids, floor);
    PermutationMembers(valid, ranking);
    ValidMembers(bids, floor);
    Tail(ranking);
    var m := multiset(valid);
    assert Top(m, ranking[0]);
    if |ranking| > 1 {
      assert |m| > 1;
      var second := ranking[1];
      assert second == ranking[1..][0];
      assert second in ranking && second.price >= floor;
      assert Top(m - multiset{ranking[0]}, second);
    } else {
      assert ranking == [ranking[0]];
    }
  }

  // ---------------------------------------------------------------------------------------------
  // The price, said of the bids alone
  // ---------------------------------------------------------------------------------------------

  /** No other bid reaches the floor. */
  ghost predicate Alone(bids: seq<Bid>, floor: real, winner: Bid) {
    forall c :: c in multiset(bids) - multiset{winner} ==> c.price < floor
  }

  /** Of the other bids that reach the floor none comes before this one. */
  ghost predicate RunnerUp(bids: seq<Bid>, floor: real, winner: Bid, second: Bid) {
    && second in multiset(bids) - multiset{winner} && second.price >= floor
    && forall c :: c in multiset(bids) - multiset{winner} && c.price >= floor ==> !Before(c, second)
  }

  lemma OthersValid(bids: seq<Bid>, floor: real, winner: Bid)
    requires winner.price >= floor
    ensures forall c :: c in multiset(AtOrAbove(bids, floor)) - multiset{winner}
                        <==> c in multiset(bids) - multiset{winner} && c.price >= floor
  {
    forall c
      ensures c in multiset(AtOrAbove(bids, floor)) - multiset{winner}
         <==> c in multiset(bids) - multiset{winner} && c.price >= floor
    {
      FilterMultiplicity((b: Bid) => b.price >= floor, bids, c);
    }
  }

  lemma SettledWinner(bids: seq<Bid>, floor: real, firstPrice: bool, r: AuctionResult)
    requires Settles(bids, floor, firstPrice, r)
    ensures r.winner.None? <==> forall b :: b in bids ==> b.price < floor
    ensures r.winner.None? ==> r == AuctionResult(None, 0.0, |bids|, 0, "no_valid_bids")
    ensures r.winner.Some? ==> r.winner.value in bids && r.winner.value.price >= floor && r.noBidReason == ""
    ensures r.winner.Some? ==> forall b :: b in bids && b.price >= floor ==> !Before(b, r.winner.value)
  {
    ValidMembers(bids, floor);
    var valid := AtOrAbove(bids, floor);
    if valid != [] {
      assert valid[0] in valid;
    }
  }

  lemma SettledPrice(bids: seq<Bid>, floor: real, firstPrice: bool, r: AuctionResult)
    requires Settles(bids, floor, firstPrice, r) && r.winner.Some?
    ensures firstPrice ==> r.clearingPrice == r.winner.value.price
    ensures !firstPrice && Alone(bids, floor, r.winner.value) ==> r.clearingPrice == floor
    ensures !firstPrice && !Alone(bids, floor, r.winner.value) ==>
      exists second :: RunnerUp(bids, floor, r.winner.value, second) && r.clearingPrice == second.price + 0.01
  {
    var m, w := multiset(AtOrAbove(bids, floor)), r.winner.value;
    SettledWinner(bids, floor, firstPrice, r);
    OthersValid(bids, floor, w);
    assert m == multiset{w} + (m - multiset{w});
    if !firstPrice && m != multiset{w} {
      var second :| Top(m - multiset{w}, second) && r.clearingPrice == second.price + MIN_INCREMENT;
      assert RunnerUp(bids, floor, w, second);
    }
  }

  // ---------------------------------------------------------------------------------------------
  // The auction
  // ---------------------------------------------------------------------------------------------

  /** Section 3.2.1 of OpenRTB 2.5 names `at`; the engine reads it together with its feature flag. */
  method RunAuction(bids: seq<Bid>, floor: real, auctionType: int, enableFirstPrice: bool)
    returns (result: AuctionResult)
    ensures Settles(bids, floor, IsFirstPrice(auctionType, enableFirstPrice), result)
    ensures result.totalBidsReceived == |bids|
    ensures (forall b :: b in bids ==> b.price < floor)
      ==> result == AuctionResult(None, 0.0, |bids|, 0, "no_valid_bids")
    ensures (exists b :: b in bids && b.price >= floor) ==> result.winner.Some?
    ensures result.winner.Some? && enableFirstPrice && auctionType == 1 ==>
      result.clearingPrice == result.winner.value.price
    ensures result.winner.Some? && !(enableFirstPrice && auctionType == 1) ==>
      if Alone(bids, floor, result.winner.value) then result.clearingPrice == floor
      else exists second ::
        RunnerUp(bids, floor, result.winner.value, second) && result.clearingPrice == second.price + 0.01
  {
    var validBids := EnforceFloor(bids, floor);
    var validCount := |validBids|;
    if validCount == 0 {
      result := AuctionResult(None, 0.0, |bids|, 0, "no_valid_bids");
      SettledWinner(bids, floor, IsFirstPrice(auctionType, enableFirstPrice), result);
      return;
    }
    var ranking := new Bid[validCount](i requires 0 <= i < |validBids| => validBids[i]);
    assert ranking[..] == validBids;
    SortByRank(ranking);
    var winner := ranking[0];
    var clearingPrice;
    if enableFirstPrice && auctionType == AUCTION_TYPE_FIRST_PRICE {
      clearingPrice := winner.price;
    } else {
      clearingPrice := floor;
      if validCount > 1 {
        var secondPrice := ranking[1].price;
        if secondPrice + MIN_INCREMENT > floor {
          clearingPrice := secondPrice + MIN_INCREMENT;
        }
      }
    }
    result := AuctionResult(Some(winner), clearingPrice, |bids|, validCount, "");
    RankingSettles(bids, floor, IsFirstPrice(auctionType, enableFirstPrice), ranking[..], result);
    SettledWinner(bids, floor, IsFirstPrice(auctionType, enableFirstPrice), result);
    SettledPrice(bids, floor, IsFirstPrice(auctionType, enableFirstPrice), result);
  }
}
