/** Win notices: the price macro of section 4.4 of OpenRTB 2.5 is expanded in the DSP's URL before it is fired. */
module WinNotice {
  import opened Text

  const MACRO := "${AUCTION_PRICE}"

  /** The nearest natural number, ties to even. */
  function Nearest(x: real): (n: nat)
    requires x >= 0.0
    ensures n as real - 0.5 <= x <= n as real + 0.5
    ensures x == n as real - 0.5 || x == n as real + 0.5 ==> n % 2 == 0
  {
    var below := x.Floor;
    var rest := x - below as real;
    if rest < 0.5 || (rest == 0.5 && below % 2 == 0) then below else below + 1
  }

  /** The last `width` decimal digits of `n`. */
  function Padded(n: nat, width: nat): (s: string)
    ensures |s| == width && AllDigits(s)
  {
    if width == 0 then "" else Padded(n / 10, width - 1) + [Digit(n % 10)]
  }

  /** The price's size in units of the fourth decimal. */
  function Units(price: real): (n: nat)
    ensures var size := if price < 0.0 then -price else price;
      n as real / 10000.0 - 0.00005 <= size <= n as real / 10000.0 + 0.00005
  {
    Nearest(10000.0 * if price < 0.0 then -price else price)
  }

  function Body(n: nat): string {
    Decimal(n / 10000) + "." + Padded(n % 10000, 4)
  }

  /** The `%.4f` text of a price. */
  function PriceText(price: real): string {
    (if price < 0.0 then "-" else "") + Body(Units(price))
  }

  predicate IsPriceChar(c: char) {
    IsDigit(c) || c == '.' || c == '-'
  }

  /** The shape of a price text: digits, a point and four digits, perhaps after a minus sign. */
  predicate IsPriceBody(s: string) {
    |s| > 5 && AllDigits(s[..|s| - 5]) && s[|s| - 5] == '.' && AllDigits(s[|s| - 4..])
  }

  function ReadBody(s: string): real
    requires IsPriceBody(s)
  {
    Number(s[..|s| - 5]) as real + Number(s[|s| - 4..]) as real / 10000.0
  }

  predicate IsPrice(s: string) {
    if s != "" && s[0] == '-' then IsPriceBody(s[1..]) else IsPriceBody(s)
  }

  /** What the receiver of the notice reads. */
  function ReadPrice(s: string): real
    requires IsPrice(s)
  {
    if s[0] == '-' then -ReadBody(s[1..]) else ReadBody(s)
  }

  function PowerOfTen(k: nat): nat {
    if k == 0 then 1 else 10 * PowerOfTen(k - 1)
  }

  lemma {:induction false} PaddedReadsBack(n: nat, width: nat)
    requires n < PowerOfTen(width)
    ensures Number(Padded(n, width)) == n
  {
    if width > 0 {
      PaddedReadsBack(n / 10, width - 1);
      assert Padded(n, width)[..width - 1] == Padded(n / 10, width - 1);
    }
  }

  lemma BodyReadsBack(n: nat)
    ensures var s := Body(n);
      && IsPriceBody(s) && ReadBody(s) == n as real / 10000.0 && s[0] != '-'
      && forall i :: 0 <= i < |s| ==> IsPriceChar(s[i])
  {
    var whole, rest := Decimal(n / 10000), Padded(n % 10000, 4);
    var s := whole + "." + rest;
    DecimalReadsBack(n / 10000);
    assert PowerOfTen(4) == 10 * PowerOfTen(3) && PowerOfTen(3) == 10 * PowerOfTen(2);
    PaddedReadsBack(n % 10000, 4);
    assert s[..|s| - 5] == whole && s[|s| - 4..] == rest;
    assert n == 10000 * (n / 10000) + n % 10000;
  }

  /** A notice at `clearingPrice` tells its receiver `price`. */
  ghost predicate Announces(clearingPrice: real, price: real) {
    var s := PriceText(clearingPrice);
    IsPrice(s) && -0.00005 <= ReadPrice(s) - price <= 0.00005
  }

  /** The price a DSP reads is the clearing price to within half a unit of the fourth decimal. */
  lemma PriceTextAccurate(price: real)
    ensures var s := PriceText(price);
      && IsPrice(s)
      && -0.00005 <= ReadPrice(s) - price <= 0.00005
      && forall i :: 0 <= i < |s| ==> IsPriceChar(s[i])
  {
    var n, s := Units(price), PriceText(price);
    BodyReadsBack(n);
    if price < 0.0 {
      assert s[1..] == Body(n);
    } else {
      assert s == Body(n);
    }
  }

  /** The URL a worker fires. */
  function FiredURL(nurl: string, clearingPrice: real): string {
    ReplaceAll(nurl, MACRO, PriceText(clearingPrice))
  }

  lemma MacroCharacters()
    ensures NoOverlap(MACRO)
    ensures forall i :: 0 <= i < |MACRO| ==> !IsPriceChar(MACRO[i])
  {}

  /** For every URL and price: no macro is left in the fired URL; it is the URL with the price text in the
      place of each macro and nothing else changed; and the macro's places are the only ones possible. */
  lemma ExpansionLaws(nurl: string, price: real)
    ensures MACRO == "${AUCTION_PRICE}"
    ensures !Contains(FiredURL(nurl, price), MACRO)
    ensures FiredURL(nurl, price) == Join(Pieces(nurl, MACRO), PriceText(price))
    ensures nurl == Join(Pieces(nurl, MACRO), MACRO)
    ensures forall k :: 0 <= k < |Pieces(nurl, MACRO)| ==> !Contains(Pieces(nurl, MACRO)[k], MACRO)
  {
    MacroCharacters();
    PriceTextAccurate(price);
    NoneLeft(nurl, MACRO, PriceText(price));
    PiecesRejoin(nurl, MACRO, PriceText(price));
    PiecesRejoin(nurl, MACRO, MACRO);
    ReplaceByItself(nurl, MACRO);
    PiecesFree(nurl, MACRO);
  }

  /** A URL template with its price slots can be recovered from the URL alone. */
  lemma TemplateRecovered(pieces: seq<string>, price: real)
    requires pieces != [] && forall k :: 0 <= k < |pieces| ==> !Contains(pieces[k], MACRO)
    ensures Pieces(Join(pieces, MACRO), MACRO) == pieces
    ensures FiredURL(Join(pieces, MACRO), price) == Join(pieces, PriceText(price))
  {
    MacroCharacters();
    PiecesUnique(pieces, MACRO);
    PiecesRejoin(Join(pieces, MACRO), MACRO, PriceText(price));
  }

  lemma ShorterFree(s: string)
    requires |s| < |MACRO|
    ensures !Contains(s, MACRO)
  {}

  lemma PaddedStep(n: nat, width: nat)
    ensures Padded(n, width + 1) == Padded(n / 10, width) + [Digit(n % 10)]
  {}

  lemma SamplePadded()
    ensures Padded(5000, 4) == "5000"
  {
    PaddedStep(5000, 3);
    PaddedStep(500, 2);
    PaddedStep(50, 1);
    PaddedStep(5, 0);
    assert Padded(0, 0) == "" && Padded(5, 1) == "5" && Padded(50, 2) == "50" && Padded(500, 3) == "500";
  }

  /** Four decimals, zeros included. */
  lemma SampleText()
    ensures PriceText(1.5) == "1.5000"
  {
    assert Units(1.5) == 15000;
    SamplePadded();
    assert Decimal(15000 / 10000) == "1";
    assert Body(15000) == "1" + "." + "5000";
  }

  lemma JoinThree(a: string, b: string, c: string, separator: string)
    ensures Join([a, b, c], separator) == a + separator + (b + separator + c)
  {
    assert [a, b, c][1..] == [b, c] && [b, c][1..] == [c];
    assert Join([b, c], separator) == b + separator + c;
  }

  /** Two macros, at 1.5. */
  lemma SampleNotice()
    ensures FiredURL("?p=" + "${AUCTION_PRICE}" + ("&q=" + "${AUCTION_PRICE}" + ""), 1.5)
         == "?p=" + "1.5000" + ("&q=" + "1.5000" + "")
  {
    var pieces := ["?p=", "&q=", ""];
    ShorterFree("?p=");
    ShorterFree("&q=");
    ShorterFree("");
    JoinThree("?p=", "&q=", "", MACRO);
    JoinThree("?p=", "&q=", "", "1.5000");
    TemplateRecovered(pieces, 1.5);
    SampleText();
  }
}
